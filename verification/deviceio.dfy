/** The device demonstration: DoIO requests to a task that drives a host file. The host may fail
    or shorten any call; what it says it stored, it stored. */
module DeviceIO {
  import C = Rendezvous

  const BUFSZ: nat := 128

  datatype Command = Read | Write

  /** IOStdReq; the data pointer is one of the client's two buffers. */
  datatype Request = Request(command: Command, intoRead: bool, length: nat, offset: nat, error: int, actual: nat)

  /** Where the client is between two DoIO calls; Sent while one is under way. */
  datatype Stage = NextRound | SetPattern | AskWrite | ClearBuffer | AskRead | Compare | SetLast | CountRound | Sent

  /** Where the device task is with the request in hand. */
  datatype Service = DoCall | SetActual | SetError

  /** A write the host made: the round it belongs to, and how many bytes were stored. */
  datatype Put = Put(round: nat, bytes: nat)
  {
    function Pat(): int { round % 256 }
  }

  /** The fields from faults on record what has happened: host calls that fell short, whether the
      request in hand is one, whether a pattern has been reported, in which round, and the writes
      since. */
  datatype Sys = Sys(c: C.Sys, stage: Stage, reading: bool, service: Service,
                     io: Request, wbuf: seq<int>, rbuf: seq<int>, file: seq<int>, n: int,
                     round: nat, pat: int, last: int, rounds: int, errors: int,
                     faults: int, failed: bool, stamped: bool, lastRound: nat, log: seq<Put>)

  function Pattern(p: int): (s: seq<int>)
    ensures |s| == BUFSZ
  {
    seq(BUFSZ, _ => p)
  }

  function Init(file: seq<int>): Sys
  {
    Sys(C.Init(), NextRound, false, DoCall, Request(Read, false, 0, 0, 0, 0), Pattern(0), Pattern(0), file, 0,
        0, 0, 0, 0, 0, 0, false, false, 0, [])
  }

  // ---- the host file -------------------------------------------------------------------

  /** pwrite: the bytes go in at the offset, with zeros up to it if the file is shorter. */
  function Stored(file: seq<int>, offset: nat, data: seq<int>): seq<int>
  {
    var padded := if |file| < offset then file + seq(offset - |file|, _ => 0) else file;
    padded[..offset] + data + (if offset + |data| <= |padded| then padded[offset + |data|..] else [])
  }

  /** Byte by byte: the data where it was put, what the file held elsewhere, and zeros in between. */
  lemma StoredBytes(file: seq<int>, offset: nat, data: seq<int>)
    ensures var s := Stored(file, offset, data);
            && |s| == (if |file| < offset + |data| then offset + |data| else |file|)
            && forall i | 0 <= i < |s| ::
                 s[i] == if offset <= i < offset + |data| then data[i - offset] else if i < |file| then file[i] else 0
  {
  }

  /** What the host lets a call return: an error, or no more than was asked for and is there. */
  function Answer(d: Sys, n: int): (k: int)
    ensures -1 <= k <= d.io.length
    ensures d.io.command.Read? && 0 < k ==> d.io.offset + k <= |d.file|
  {
    if n < 0 || n > d.io.length then -1
    else if d.io.command.Read? && d.io.offset + n > |d.file| then -1
    else n
  }

  /** And it may return any such count, 0 included. */
  lemma EveryAnswerIsPossible(d: Sys, k: int)
    requires -1 <= k <= d.io.length && (d.io.command.Read? && 0 <= k ==> d.io.offset + k <= |d.file|)
    ensures Answer(d, k) == k
  {
  }

  function Buffer(d: Sys): seq<int> { if d.io.intoRead then d.rbuf else d.wbuf }

  /** The system call: io_Length bytes between io_Data and the file, or as many as the host takes. */
  function HostCall(d: Sys, n: int): Sys
    requires d.io.length <= |Buffer(d)|
  {
    var k := Answer(d, n);
    var short := k != d.io.length;
    var e := d.(n := k, failed := short, faults := if short then d.faults + 1 else d.faults, service := SetActual);
    if d.io.command.Write? then
      e.(file := if k < 0 then d.file else Stored(d.file, d.io.offset, Buffer(d)[..k]),
         log := d.log + [Put(d.round, if k < 0 then 0 else k)])
    else if k <= 0 then e
    else
      var got := d.file[d.io.offset..d.io.offset + k] + Buffer(d)[k..];
      if d.io.intoRead then e.(rbuf := got) else e.(wbuf := got)
  }

  // ---- the programs --------------------------------------------------------------------

  function Serve(d: Sys, n: int): Sys
    requires d.io.length <= |Buffer(d)|
  {
    match d.service
    case DoCall => HostCall(d, n)
    case SetActual => d.(io := d.io.(actual := if d.n < 0 then 0 else d.n), service := SetError)
    case SetError => d.(io := d.io.(error := if d.n == d.io.length then 0 else -1), service := DoCall)
  }

  function Compute(d: Sys): Sys
  {
    match d.stage
    case NextRound => d.(round := d.round + 1, pat := (d.round + 1) % 256, stage := SetPattern)
    case SetPattern => d.(wbuf := Pattern(d.pat), stage := AskWrite)
    case AskWrite =>
      d.(io := d.io.(command := Write, intoRead := false, length := BUFSZ, offset := 0),
          reading := false, stage := Sent)
    case ClearBuffer => d.(rbuf := Pattern(0), stage := AskRead)
    case AskRead =>
      d.(io := d.io.(command := Read, intoRead := true, length := BUFSZ, offset := 0),
          reading := true, stage := Sent)
    case Compare => d.(errors := if d.wbuf != d.rbuf then d.errors + 1 else d.errors, stage := SetLast)
    case SetLast => d.(last := d.pat, stamped := true, lastRound := d.round, log := [], stage := CountRound)
    case CountRound => d.(rounds := d.rounds + 1, stage := NextRound)
    case Sent => d
  }

  /** The client counts an error exactly when what it read back differs from what it wrote. */
  lemma MismatchCounts(d: Sys)
    requires d.stage.Compare?
    ensures Compute(d).errors == d.errors <==> d.wbuf == d.rbuf
    ensures d.errors <= Compute(d).errors <= d.errors + 1
  {
  }

  /** The return of DoIO: a non-zero io_Error is counted and the round abandoned. */
  function Returned(d: Sys): Sys
  {
    if d.io.error != 0 then d.(errors := d.errors + 1, failed := false, stage := NextRound)
    else d.(stage := if d.reading then Compare else ClearBuffer)
  }

  /** One statement of the running task, the host answering n if it is asked, or one tick. */
  datatype Action = Statement(n: int) | Timer(last: bool)

  ghost function Next(d: Sys, a: Action): Sys
    requires C.Inv(d.c) && d.io.length <= |Buffer(d)|
  {
    if !d.c.k.on then d else
    match a
    case Timer(last) => d.(c := C.Next(d.c, C.Timer(last)))
    case Statement(n) =>
      if C.ServerThinks(d.c) then Serve(d, n).(c := C.Next(d.c, C.Statement(!d.service.SetError?)))
      else if C.ClientThinks(d.c) then
        var e := Compute(d);
        e.(c := C.Next(d.c, C.Statement(!e.stage.Sent?)))
      else if C.ClientLooks(d.c) then Returned(d).(c := C.Next(d.c, C.Statement(false)))
      else d.(c := C.Next(d.c, C.Statement(false)))
  }

  // ---- the invariant -------------------------------------------------------------------

  /** The file begins with these bytes. */
  predicate Holds(file: seq<int>, bytes: seq<int>)
  {
    bytes <= file
  }

  /** The request as sent: a whole buffer at the start of the file, and for a read the file still
      holding what the round wrote. */
  predicate Asked(d: Sys)
  {
    && d.stage.Sent? && d.wbuf == Pattern(d.pat) && d.io.length == BUFSZ && d.io.offset == 0
    && d.io.intoRead == d.reading && d.io.command == (if d.reading then Read else Write)
    && (d.reading ==> Holds(d.file, d.wbuf))
  }

  /** And before the host has answered, a read into a cleared buffer. */
  predicate AskedClean(d: Sys)
  {
    Asked(d) && (d.reading ==> d.rbuf == Pattern(0))
  }

  /** After the host's answer: a full one left the bytes where they were sent. */
  predicate Answered(d: Sys)
  {
    && Asked(d) && d.failed == (d.n != BUFSZ) && -1 <= d.n <= BUFSZ
    && (!d.failed ==> Holds(d.file, d.wbuf) && (d.reading ==> d.rbuf == d.wbuf))
    && (d.reading ==> Brought(d.rbuf, d.file, d.n))
  }

  /** The bytes the host gave, and the cleared buffer after them. */
  predicate Brought(rbuf: seq<int>, file: seq<int>, n: int)
  {
    && |rbuf| == BUFSZ && (n > 0 ==> n <= |file|)
    && forall i | 0 <= i < BUFSZ :: rbuf[i] == if i < n && i < |file| then file[i] else 0
  }

  predicate Reported(d: Sys)
  {
    Answered(d) && d.io.error == (if d.failed then -1 else 0) && d.io.actual == (if d.n < 0 then 0 else d.n)
  }

  predicate StageOk(d: Sys)
  {
    match d.stage
    case NextRound | SetPattern => true
    case AskWrite => d.wbuf == Pattern(d.pat)
    case AskRead => d.wbuf == Pattern(d.pat) && Holds(d.file, d.wbuf) && d.rbuf == Pattern(0)
    case ClearBuffer | SetLast => d.wbuf == Pattern(d.pat) && Holds(d.file, d.wbuf)
    case Compare => d.wbuf == Pattern(d.pat) && Holds(d.file, d.wbuf) && d.rbuf == d.wbuf
    case CountRound => d.stamped
    case Sent => AskedClean(d)
  }

  predicate Sized(d: Sys)
  {
    |d.wbuf| == BUFSZ && |d.rbuf| == BUFSZ && d.io.length <= BUFSZ
  }

  /** What a buffer's worth of one pattern becomes under writes of prefixes of others. */
  function Overlaid(last: int, log: seq<Put>): (s: seq<int>)
    ensures |s| == BUFSZ
  {
    if log == [] then Pattern(last)
    else
      var prior, w := Overlaid(last, log[..|log| - 1]), log[|log| - 1];
      var n := if w.bytes > BUFSZ then BUFSZ else w.bytes;
      Pattern(w.Pat())[..n] + prior[n..]
  }

  /** g_errors counts the host's failures, one not yet seen by the client apart; and the file
      begins with the last pattern reported, under the writes made since. */
  predicate CountsOk(d: Sys)
  {
    && d.errors >= 0 && d.errors + (if d.failed then 1 else 0) == d.faults
    && d.pat == d.round % 256 && d.last == d.lastRound % 256
    && (d.stamped ==> Holds(d.file, Overlaid(d.last, d.log)))
    && (d.stamped ==> d.lastRound <= d.round && (!d.stage.NextRound? && !d.stage.CountRound? ==> d.lastRound < d.round))
    && (d.stamped ==> forall i | 0 <= i < |d.log| :: d.lastRound < d.log[i].round <= d.round && d.log[i].bytes <= BUFSZ)
  }

  /** Every byte stored of another pattern has since been stored over with the last one again,
      which takes 256 rounds to come round. */
  predicate Restored(last: int, log: seq<Put>)
  {
    forall i | 0 <= i < |log| && log[i].Pat() != last && log[i].bytes > 0 ::
      exists j | i < j < |log| :: log[j].Pat() == last && log[j].bytes >= log[i].bytes
  }

  ghost predicate DataOk(d: Sys)
    requires C.Shape(d.c)
  {
    && Sized(d) && CountsOk(d)
    && (d.service != DoCall ==> d.c.server.SWork? && C.PhaseOf(d.c).Serving?)
    && match C.PhaseOf(d.c)
       case Composing => !d.failed && StageOk(d) && (d.stage.Sent? <==> !d.c.client.CThink?)
       case Queued => !d.failed && AskedClean(d)
       case Serving =>
         (match d.service
          case DoCall => !d.failed && AskedClean(d)
          case SetActual => Answered(d)
          case SetError => Answered(d) && d.io.actual == (if d.n < 0 then 0 else d.n))
       case Answering | Replied | Taken => Reported(d)
  }

  ghost predicate Inv(d: Sys)
  {
    C.Inv(d.c) && Sized(d) && DataOk(d)
  }

  lemma TimerKeeps(d: Sys, last: bool)
    requires Inv(d) && d.c.k.on
    ensures Inv(Next(d, Timer(last)))
  {
    hide C.Inv, C.Next, C.PhaseOf, DataOk;
    OnShape(d.c);
    C.NextMoves(d.c, C.Timer(last));
    var d' := Next(d, Timer(last));
    OnShape(d'.c);
    QuietKeeps(d, d');
  }

  /** Whether the statement about to be executed leaves its program with a further one to compute. */
  predicate More(d: Sys)
    requires |d.c.k.tasks| > C.CLIENT
  {
    if C.ServerThinks(d.c) then !d.service.SetError? else C.ClientThinks(d.c) && !Compute(d).stage.Sent?
  }

  function Programs(d: Sys, n: int): Sys
    requires |d.c.k.tasks| > C.CLIENT && d.io.length <= |Buffer(d)|
  {
    if C.ServerThinks(d.c) then Serve(d, n) else if C.ClientThinks(d.c) then Compute(d)
    else if C.ClientLooks(d.c) then Returned(d) else d
  }

  lemma StatementKeeps(d: Sys, n: int)
    requires Inv(d) && d.c.k.on
    ensures Inv(Next(d, Statement(n)))
  {
    hide C.Inv, C.Next, C.PhaseOf, DataOk, Serve, Compute, Returned, C.ServerThinks, C.ClientThinks, C.ClientLooks;
    OnShape(d.c);
    C.NextMoves(d.c, C.Statement(More(d)));
    NextIs(d, n);
    var d' := Next(d, Statement(n));
    SizedKept(d, n);
    OnShape(d'.c);
    MovesKeep(d, d', n);
  }

  lemma NextIs(d: Sys, n: int)
    requires Inv(d) && d.c.k.on && |d.c.k.tasks| > C.CLIENT
    ensures C.Live(d.c) && Next(d, Statement(n)) == Programs(d, n).(c := C.Next(d.c, C.Statement(More(d))))
  {
    hide C.Inv, C.Next, C.PhaseOf, DataOk, Serve, Compute, Returned, C.ServerThinks, C.ClientThinks, C.ClientLooks;
    OnShape(d.c);
  }

  lemma NextKeepsInv(d: Sys, a: Action)
    requires Inv(d)
    ensures Inv(Next(d, a))
  {
    hide C.Inv, DataOk, C.Next, Serve, Compute, Returned;
    if d.c.k.on {
      match a
      case Timer(last) => TimerKeeps(d, last);
      case Statement(n) => StatementKeeps(d, n);
    }
  }

  lemma OnShape(c: C.Sys)
    requires C.Inv(c)
    ensures C.Live(c) && C.Shape(c)
  {
  }

  lemma SizedKept(d: Sys, n: int)
    requires Sized(d) && |d.c.k.tasks| > C.CLIENT
    ensures Sized(Programs(d, n)) && Programs(d, n).c == d.c
  {
    hide Serve, Compute, Returned, Sized, C.ServerThinks, C.ClientThinks, C.ClientLooks;
    ServeSized(d, n);
    ComputeSized(d);
    ReturnedSized(d);
  }

  lemma ServeSized(d: Sys, n: int)
    requires Sized(d)
    ensures Sized(Serve(d, n)) && Serve(d, n).c == d.c
  {
    if d.service.DoCall? { CallSized(d, n); }
  }

  lemma CallSized(d: Sys, n: int)
    requires Sized(d)
    ensures Sized(HostCall(d, n)) && HostCall(d, n).c == d.c
  {
    hide Pattern, Stored;
  }

  lemma ComputeSized(d: Sys)
    requires Sized(d)
    ensures Sized(Compute(d)) && Compute(d).c == d.c
  {
    hide Pattern;
  }

  lemma ReturnedSized(d: Sys)
    requires Sized(d)
    ensures Sized(Returned(d)) && Returned(d).c == d.c
  {
  }

  lemma QuietKeeps(d: Sys, d': Sys)
    requires C.Shape(d.c) && C.Shape(d'.c) && DataOk(d) && C.Quiet(d.c, d'.c) && d' == d.(c := d'.c)
    ensures DataOk(d')
  {
    hide C.PhaseOf, Holds, CountsOk, Sized, Pattern, AskedClean, Answered, Reported;
    PartsDepend(d, d');
  }

  lemma MovesKeep(d: Sys, d': Sys, n: int)
    requires C.Shape(d.c) && C.Shape(d'.c) && DataOk(d) && C.Moves(d.c, d'.c, More(d))
    requires d' == Programs(d, n).(c := d'.c)
    ensures DataOk(d')
  {
    hide C.PhaseOf, Serve, Compute, Returned, Holds, CountsOk, Pattern, AskedClean, StageOk, Answered, Reported;
    if C.ServerThinks(d.c) { ServeKeeps(d, n); PartsDepend(Serve(d, n), d'); }
    else if C.ClientThinks(d.c) { ComputeKeeps(d); PartsDepend(Compute(d), d'); }
    else if C.ClientLooks(d.c) { ReturnKeeps(d); PartsDepend(Returned(d), d'); }
    else { QuietKeeps(d, d'); }
  }

  /** None of the parts looks at the exchange. */
  lemma PartsDepend(d: Sys, d': Sys)
    requires d' == d.(c := d'.c)
    ensures AskedClean(d') == AskedClean(d) && Answered(d') == Answered(d) && Reported(d') == Reported(d)
    ensures StageOk(d') == StageOk(d) && Sized(d') == Sized(d) && CountsOk(d') == CountsOk(d)
  {
    hide Holds, Pattern;
  }

  lemma StoredHolds(file: seq<int>, data: seq<int>)
    ensures Holds(Stored(file, 0, data), data)
  {
  }

  /** A write of k bytes of a round's pattern, or a refused one, adds one write to the overlay. */
  lemma StoredOverlays(file: seq<int>, last: int, log: seq<Put>, round: nat, k: int)
    requires Holds(file, Overlaid(last, log)) && k <= BUFSZ
    ensures var n := if k < 0 then 0 else k;
            Holds(if k < 0 then file else Stored(file, 0, Pattern(round % 256)[..k]),
                  Overlaid(last, log + [Put(round, n)]))
  {
    hide Pattern;
    var n := if k < 0 then 0 else k;
    var more := log + [Put(round, n)];
    assert more[..|more| - 1] == log;
    assert Overlaid(last, more) == Pattern(round % 256)[..n] + Overlaid(last, log)[n..];
  }

  lemma ServeKeeps(d: Sys, n: int)
    requires Sized(d) && CountsOk(d)
    requires match d.service
             case DoCall => !d.failed && AskedClean(d)
             case SetActual => Answered(d)
             case SetError => Answered(d) && d.io.actual == (if d.n < 0 then 0 else d.n)
    ensures var e := Serve(d, n);
            && Sized(e) && CountsOk(e) && e.c == d.c
            && match d.service
               case DoCall => e.service == SetActual && Answered(e)
               case SetActual => e.service == SetError && Answered(e) && e.io.actual == (if e.n < 0 then 0 else e.n)
               case SetError => e.service == DoCall && Reported(e)
  {
    hide Pattern, Stored, HostCall, Overlaid;
    if d.service.DoCall? { if d.reading { CallReads(d, n); } else { CallWrites(d, n); } }
  }

  lemma CallReads(d: Sys, n: int)
    requires Sized(d) && CountsOk(d) && !d.failed && AskedClean(d) && d.reading
    ensures var e := HostCall(d, n);
            Sized(e) && CountsOk(e) && e.c == d.c && e.service == SetActual && Answered(e)
  {
    hide Stored, Overlaid;
    var k := Answer(d, n);
    if k == BUFSZ { assert d.file[0..BUFSZ] + d.rbuf[BUFSZ..] == d.wbuf; }
  }

  lemma CallWrites(d: Sys, n: int)
    requires Sized(d) && CountsOk(d) && !d.failed && Asked(d) && !d.reading
    ensures var e := HostCall(d, n);
            Sized(e) && CountsOk(e) && e.c == d.c && e.service == SetActual && Answered(e)
  {
    hide Pattern, Stored, Overlaid, Holds;
    var k := Answer(d, n);
    if k == BUFSZ { assert d.wbuf[..k] == d.wbuf; }
    StoredHolds(d.file, d.wbuf);
    if d.stamped { StoredOverlays(d.file, d.last, d.log, d.round, k); }
  }

  lemma ComputeKeeps(d: Sys)
    requires Sized(d) && CountsOk(d) && !d.failed && StageOk(d) && !d.stage.Sent? && d.service == DoCall
    ensures var e := Compute(d);
            Sized(e) && CountsOk(e) && !e.failed && StageOk(e) && e.service == DoCall && e.c == d.c
  {
    hide Pattern;
  }

  lemma ReturnKeeps(d: Sys)
    requires Sized(d) && CountsOk(d) && Reported(d) && d.service == DoCall
    ensures var e := Returned(d);
            Sized(e) && CountsOk(e) && !e.failed && StageOk(e) && e.service == DoCall && !e.stage.Sent? && e.c == d.c
  {
    hide Pattern, Holds;
  }

  // ---- whole runs ----------------------------------------------------------------------

  ghost function Run(d: Sys, actions: seq<Action>): Sys
    requires Inv(d)
    decreases |actions|
  {
    if actions == [] then d else NextKeepsInv(d, actions[0]); Run(Next(d, actions[0]), actions[1..])
  }

  lemma {:induction false} RunKeepsInv(d: Sys, actions: seq<Action>)
    requires Inv(d)
    ensures Inv(Run(d, actions))
    decreases |actions|
  {
    hide C.Inv, DataOk, Next;
    if actions == [] {
    } else {
      NextKeepsInv(d, actions[0]);
      RunKeepsInv(Next(d, actions[0]), actions[1..]);
    }
  }

  lemma InitInv(file: seq<int>)
    ensures Inv(Init(file))
  {
    hide C.Inv, C.PhaseOf, C.Init, Pattern;
    C.InitInv();
    OnShape(C.Init());
    C.InitThinks();
  }

  ghost function Reached(file: seq<int>, actions: seq<Action>): Sys
  {
    InitInv(file);
    Run(Init(file), actions)
  }

  /** Under any schedule and any host, and when it is over: g_errors counts exactly the calls the host failed or cut
      short, the one the client has yet to hear of apart. A host that never does leaves it 0: no
      read returns other bytes than the write before it stored. */
  lemma ErrorsAreHostFaults(file: seq<int>, actions: seq<Action>)
    ensures var d := Reached(file, actions);
            d.errors == d.faults - (if d.failed then 1 else 0) && (d.faults == 0 ==> d.errors == 0)
  {
    hide C.Inv, Next, C.PhaseOf;
    InitInv(file);
    RunKeepsInv(Init(file), actions);
    OnShape(Reached(file, actions).c);
  }

  /** Under any schedule and any host: when DoIO returns, a zero io_Error means that all of
      io_Length was transferred, and a successful read brought back the bytes the round wrote; after
      any read the buffer holds io_Actual bytes of the file and zeros. */
  lemma SuccessIsComplete(file: seq<int>, actions: seq<Action>)
    ensures var d := Reached(file, actions);
            |d.c.k.tasks| == C.TASKS + 1 && (C.ClientLooks(d.c) && d.io.error == 0 ==>
              d.io.actual == d.io.length == BUFSZ && d.wbuf <= d.file && (d.reading ==> d.rbuf == d.wbuf))
            && (C.ClientLooks(d.c) && d.reading ==> Brought(d.rbuf, d.file, d.io.actual))
  {
    hide C.Inv, Next, C.PhaseOf;
    InitInv(file);
    RunKeepsInv(Init(file), actions);
    var d := Reached(file, actions);
    OnShape(d.c);
    if C.ClientLooks(d.c) { C.LooksIsTaken(d.c); }
  }

  // ---- the last pattern reported -------------------------------------------------------

  /** The bytes from h on show the last pattern exactly when every write of another that reached
      past h was later covered by a write of the last one again. */
  ghost predicate RestoredAbove(last: int, log: seq<Put>, h: nat)
  {
    forall i | 0 <= i < |log| && log[i].Pat() != last && log[i].bytes > h ::
      exists j | i < j < |log| :: log[j].Pat() == last && log[j].bytes >= log[i].bytes
  }

  lemma {:induction false} OverlaidAbove(last: int, log: seq<Put>, h: nat)
    requires h <= BUFSZ && forall i | 0 <= i < |log| :: log[i].bytes <= BUFSZ
    ensures Overlaid(last, log)[h..] == Pattern(last)[h..] <==> RestoredAbove(last, log, h)
  {
    if log != [] {
      var prior, w := log[..|log| - 1], log[|log| - 1];
      if w.Pat() == last {
        var top := if w.bytes > h then w.bytes else h;
        OverlaidAbove(last, prior, top);
        SameLater(last, prior, w, h);
        LaterRestores(last, log, h);
      } else if w.bytes > h {
        assert Overlaid(last, log)[h..][0] == w.Pat();
        OtherSpoils(last, log, h);
      } else {
        OverlaidAbove(last, prior, h);
        SameBelow(last, prior, w, h);
        LaterMisses(last, log, h);
      }
    }
  }

  lemma SameLater(last: int, prior: seq<Put>, w: Put, h: nat)
    requires h <= BUFSZ && w.bytes <= BUFSZ && w.Pat() == last
    ensures var top := if w.bytes > h then w.bytes else h;
            Overlaid(last, prior + [w])[h..] == Pattern(last)[h..] <==>
              Overlaid(last, prior)[top..] == Pattern(last)[top..]
  {
    assert (prior + [w])[..|prior|] == prior;
    var top := if w.bytes > h then w.bytes else h;
    var s, p := Overlaid(last, prior + [w]), Overlaid(last, prior);
    assert s == Pattern(last)[..w.bytes] + p[w.bytes..];
    assert forall b | 0 <= b < BUFSZ :: s[b] == if b < w.bytes then last else p[b];
    if s[h..] == Pattern(last)[h..] {
      forall b | top <= b < BUFSZ ensures p[b] == last { assert s[h..][b - h] == Pattern(last)[h..][b - h]; }
    }
    if p[top..] == Pattern(last)[top..] {
      forall b | top <= b < BUFSZ ensures s[b] == last { assert p[top..][b - top] == Pattern(last)[top..][b - top]; }
    }
  }

  lemma SameBelow(last: int, prior: seq<Put>, w: Put, h: nat)
    requires w.bytes <= h <= BUFSZ
    ensures Overlaid(last, prior + [w])[h..] == Overlaid(last, prior)[h..]
  {
    assert (prior + [w])[..|prior|] == prior;
  }

  lemma LaterRestores(last: int, log: seq<Put>, h: nat)
    requires log != [] && log[|log| - 1].Pat() == last
    ensures var n := log[|log| - 1].bytes;
            RestoredAbove(last, log, h) <==> RestoredAbove(last, log[..|log| - 1], if n > h then n else h)
  {
    var prior, n := log[..|log| - 1], log[|log| - 1].bytes;
    if RestoredAbove(last, log, h) {
      forall i | 0 <= i < |prior| && prior[i].Pat() != last && prior[i].bytes > if n > h then n else h
        ensures exists j | i < j < |prior| :: prior[j].Pat() == last && prior[j].bytes >= prior[i].bytes
      {
        var j :| i < j < |log| && log[j].Pat() == last && log[j].bytes >= log[i].bytes;
        assert prior[j] == log[j];
      }
    }
    if RestoredAbove(last, prior, if n > h then n else h) {
      forall i | 0 <= i < |log| && log[i].Pat() != last && log[i].bytes > h
        ensures exists j | i < j < |log| :: log[j].Pat() == last && log[j].bytes >= log[i].bytes
      {
        if log[i].bytes > n {
          assert prior[i] == log[i];
          var j :| i < j < |prior| && prior[j].Pat() == last && prior[j].bytes >= prior[i].bytes;
          assert log[j] == prior[j];
        } else {
          assert log[|log| - 1].bytes >= log[i].bytes;
        }
      }
    }
  }

  lemma OtherSpoils(last: int, log: seq<Put>, h: nat)
    requires log != [] && log[|log| - 1].Pat() != last && log[|log| - 1].bytes > h
    ensures !RestoredAbove(last, log, h)
  {
  }

  lemma LaterMisses(last: int, log: seq<Put>, h: nat)
    requires log != [] && log[|log| - 1].Pat() != last && log[|log| - 1].bytes <= h
    ensures RestoredAbove(last, log, h) <==> RestoredAbove(last, log[..|log| - 1], h)
  {
    var prior := log[..|log| - 1];
    if RestoredAbove(last, log, h) {
      forall i | 0 <= i < |prior| && prior[i].Pat() != last && prior[i].bytes > h
        ensures exists j | i < j < |prior| :: prior[j].Pat() == last && prior[j].bytes >= prior[i].bytes
      {
        var j :| i < j < |log| && log[j].Pat() == last && log[j].bytes >= log[i].bytes;
        assert prior[j] == log[j];
      }
    }
    if RestoredAbove(last, prior, h) {
      forall i | 0 <= i < |log| && log[i].Pat() != last && log[i].bytes > h
        ensures exists j | i < j < |log| :: log[j].Pat() == last && log[j].bytes >= log[i].bytes
      {
        assert prior[i] == log[i];
        var j :| i < j < |prior| && prior[j].Pat() == last && prior[j].bytes >= prior[i].bytes;
        assert log[j] == prior[j];
      }
    }
  }

  lemma FileShowsOverlay(file: seq<int>, last: int, log: seq<Put>)
    requires Holds(file, Overlaid(last, log)) && forall i | 0 <= i < |log| :: log[i].bytes <= BUFSZ
    ensures Pattern(last) <= file <==> Restored(last, log)
  {
    hide Pattern;
    OverlaidAbove(last, log, 0);
    assert Overlaid(last, log)[0..] == Overlaid(last, log) && Pattern(last)[0..] == Pattern(last);
    assert file[..BUFSZ] == Overlaid(last, log);
  }

  /** Under any schedule and any host, and when it is over: the file begins with the last pattern reported exactly when
      every byte of another pattern stored since has been stored over with it again. */
  lemma FileHoldsLastPattern(file: seq<int>, actions: seq<Action>)
    ensures var d := Reached(file, actions);
            d.stamped ==> (Pattern(d.last) <= d.file <==> Restored(d.last, d.log))
  {
    hide C.Inv, Next, C.PhaseOf, Restored, Overlaid, Pattern;
    InitInv(file);
    RunKeepsInv(Init(file), actions);
    var d := Reached(file, actions);
    OnShape(d.c);
    if d.stamped { FileShowsOverlay(d.file, d.last, d.log); }
  }

  /** Within 256 rounds of the report no pattern comes round again, so the file begins with the
      last one exactly while nothing has been stored since. */
  lemma AnyStoreSpoilsTheCheck(file: seq<int>, actions: seq<Action>)
    ensures var d := Reached(file, actions);
            d.stamped && d.round < d.lastRound + 256 ==>
              (Pattern(d.last) <= d.file <==> forall i | 0 <= i < |d.log| :: d.log[i].bytes == 0)
  {
    FileHoldsLastPattern(file, actions);
    hide C.Inv, Next, C.PhaseOf, Overlaid, Pattern;
    InitInv(file);
    RunKeepsInv(Init(file), actions);
    var d := Reached(file, actions);
    OnShape(d.c);
    if d.stamped && d.round < d.lastRound + 256 { NoPatternRecurs(d.last, d.lastRound, d.round, d.log); }
  }

  lemma NoPatternRecurs(last: int, lastRound: nat, round: nat, log: seq<Put>)
    requires last == lastRound % 256 && round < lastRound + 256
    requires forall i | 0 <= i < |log| :: lastRound < log[i].round <= round
    ensures Restored(last, log) <==> forall i | 0 <= i < |log| :: log[i].bytes == 0
  {
    forall i | 0 <= i < |log| ensures log[i].Pat() != last {}
  }

  /** The closing check of the demonstration fails as soon as the device has stored the next
      round's pattern whole, which the client has not reported yet. */
  lemma NextWriteFailsTheCheck(d: Sys)
    requires Sized(d) && CountsOk(d) && Asked(d) && d.service == DoCall && !d.reading
    requires d.stamped && d.round == d.lastRound + 1
    ensures var e := Serve(d, BUFSZ); e.last == d.last && !(Pattern(e.last) <= e.file)
  {
    StoredHolds(d.file, d.wbuf);
    assert d.wbuf[..BUFSZ] == d.wbuf;
    assert d.wbuf[0] == d.round % 256 && Pattern(d.last)[0] == d.last;
  }
}
