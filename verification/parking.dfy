/** The socket wrappers: retry a would-block call, parking on the pump between tries, while other
    tasks and the pump thread use the same registration table. */
module Parking {
  import opened Pump
  import H = PumpHistory

  const PARK_TIMEOUT_MS: nat := 5000
  const PARK_SLICE_MS: nat := 100
  const ETIMEDOUT: int := 60

  /** What one host call gives: a byte count, would-block, or another error. */
  datatype Answer = Bytes(n: nat) | WouldBlock | Error(errno: int)

  datatype Result = Count(n: nat) | Failed(errno: int)

  /** The descriptor is registered by this wake target. */
  predicate Mine(view: View, fd: int, sig: nat)
  {
    fd in view && view[fd].sig == sig
  }

  /** A call another task or the pump thread may make while sig's task is parked. */
  predicate IsForeign(c: H.Call, sig: nat)
  {
    match c
    case Register(_, _, s) => s != sig
    case Unregister(_, s) => s != sig
    case _ => true
  }

  /** ps_wait, as far as the table goes: whatever the others do meanwhile, the pump being stopped
      and started included, none of them makes or changes a registration of sig, and only a stop
      removes one. */
  method Park(t: Table, ghost fd: int, ghost sig: nat, others: seq<H.Call>)
    requires t.Valid() && forall a | a in others :: IsForeign(a, sig)
    modifies t, t.regs
    ensures t.Valid() && t.regs == old(t.regs)
    ensures Mine(t.view, fd, sig) ==> Mine(old(t.view), fd, sig) && t.view[fd].want == old(t.view)[fd].want
    ensures H.Stop !in others ==> Mine(t.view, fd, sig) == Mine(old(t.view), fd, sig)
  {
    hide TableOk, FiltersOk;
    for i := 0 to |others|
      invariant t.Valid() && t.regs == old(t.regs)
      invariant Mine(t.view, fd, sig) ==> Mine(old(t.view), fd, sig) && t.view[fd].want == old(t.view)[fd].want
      invariant H.Stop !in others ==> Mine(t.view, fd, sig) == Mine(old(t.view), fd, sig)
    {
      assert others[i] in others;
      var d := H.Perform(t, others[i]);
    }
  }

  /** What a park was preceded by: the table, whether it would take the registration, and the
      table with which the task then slept. */
  datatype Parked = Parked(before: View, taken: bool, asleep: View)

  /** The registration went in, for this direction and no other, if the table would take it. */
  predicate RegisteredFor(p: Parked, fd: int, dir: Dir, sig: nat)
  {
    p.asleep == if p.taken then Wanting(p.before, fd, {dir}, sig) else p.before
  }

  /** hs_send (WRITE) and hs_recv (READ): the first answer that is not would-block, within fifty
      parks, each with the registration in place; and none is left behind, unless it never parked. */
  method Transfer(t: Table, fd: int, dir: Dir, sig: nat, host: nat -> Answer, others: nat -> seq<H.Call>)
    returns (r: Result, parks: nat, ghost sleeps: seq<Parked>)
    requires t.Valid() && forall i, a | a in others(i) :: IsForeign(a, sig)
    modifies t, t.regs
    ensures t.Valid() && t.regs == old(t.regs)
    ensures parks <= PARK_TIMEOUT_MS / PARK_SLICE_MS && forall i | 0 <= i < parks :: host(i).WouldBlock?
    ensures |sleeps| == parks && forall i | 0 <= i < parks :: RegisteredFor(sleeps[i], fd, dir, sig)
    ensures parks > 0 ==> sleeps[0].before == old(t.view) && sleeps[0].taken == old(t.Takes(fd, sig))
    ensures match host(parks)
            case Bytes(n) => r == Count(n)
            case Error(e) => r == Failed(e)
            case WouldBlock => r == Failed(ETIMEDOUT) && parks == PARK_TIMEOUT_MS / PARK_SLICE_MS
    ensures if host(0).WouldBlock? then !Mine(t.view, fd, sig) else t.view == old(t.view)
  {
    hide TableOk, FiltersOk;
    var spent := 0;
    parks, sleeps := 0, [];
    while true
      invariant t.Valid() && t.regs == old(t.regs)
      invariant spent == parks * PARK_SLICE_MS && spent <= PARK_TIMEOUT_MS
      invariant forall i | 0 <= i < parks :: host(i).WouldBlock?
      invariant |sleeps| == parks && forall i | 0 <= i < parks :: RegisteredFor(sleeps[i], fd, dir, sig)
      invariant if parks == 0 then t.Takes(fd, sig) == old(t.Takes(fd, sig))
                else sleeps[0].before == old(t.view) && sleeps[0].taken == old(t.Takes(fd, sig))
      invariant if parks > 0 then !Mine(t.view, fd, sig) else t.view == old(t.view)
      decreases PARK_TIMEOUT_MS - spent
    {
      match host(parks)
      case Bytes(n) => return Count(n), parks, sleeps;
      case Error(e) => return Failed(e), parks, sleeps;
      case WouldBlock =>
        ghost var before, taken := t.view, t.Takes(fd, sig);
        var registered := t.Register(fd, {dir}, sig);
        if spent >= PARK_TIMEOUT_MS {
          var gone := t.Unregister(fd, sig);
          return Failed(ETIMEDOUT), parks, sleeps;
        }
        sleeps := sleeps + [Parked(before, taken, t.view)];
        Park(t, fd, sig, others(parks));
        spent := spent + PARK_SLICE_MS;
        parks := parks + 1;
        var gone := t.Unregister(fd, sig);
    }
  }

  /** What a connect can answer at once, and what SO_ERROR can say later. */
  datatype Connect = Connected | Pending | Refused(errno: int)

  /** hs_connect: registered for the whole wait, unregistered on every way out of it. */
  method ConnectTo(t: Table, fd: int, sig: nat, first: Connect, writable: nat -> bool, soError: Result,
      others: nat -> seq<H.Call>)
    returns (r: Result, parks: nat, ghost asleep: seq<View>)
    requires t.Valid() && forall i, a | a in others(i) :: IsForeign(a, sig)
    modifies t, t.regs
    ensures t.Valid() && t.regs == old(t.regs)
    ensures parks <= PARK_TIMEOUT_MS / PARK_SLICE_MS && forall i | 0 <= i < parks :: first.Pending? && !writable(i)
    ensures |asleep| == parks && forall i | 0 <= i < parks && Mine(asleep[i], fd, sig) :: asleep[i][fd].want == {WRITE}
    ensures parks > 0 && (forall i :: H.Stop !in others(i)) ==>
              forall i | 0 <= i < parks :: Mine(asleep[i], fd, sig) == old(t.Takes(fd, sig))
    ensures match first
            case Connected => r == Count(0)
            case Refused(e) => r == Failed(e)
            case Pending =>
              if !writable(parks) then r == Failed(ETIMEDOUT) && parks == PARK_TIMEOUT_MS / PARK_SLICE_MS
              else r == match soError
                        case Count(e) => (if e == 0 then Count(0) else Failed(e))
                        case Failed(e) => Failed(e)
    ensures if first.Pending? then !Mine(t.view, fd, sig) else t.view == old(t.view)
  {
    hide TableOk, FiltersOk;
    parks, asleep := 0, [];
    if first.Connected? {
      return Count(0), 0, [];
    }
    if first.Refused? {
      return Failed(first.errno), 0, [];
    }
    NobodyOwns(t.regs[..], t.view);
    var registered := t.Register(fd, {WRITE}, sig);
    var spent := 0;
    r := Failed(ETIMEDOUT);
    while true
      invariant t.Valid() && t.regs == old(t.regs)
      invariant spent == parks * PARK_SLICE_MS && spent <= PARK_TIMEOUT_MS && r == Failed(ETIMEDOUT)
      invariant forall i | 0 <= i < parks :: !writable(i)
      invariant Mine(t.view, fd, sig) ==> t.view[fd].want == {WRITE}
      invariant |asleep| == parks
      invariant forall i | 0 <= i < parks && Mine(asleep[i], fd, sig) :: asleep[i][fd].want == {WRITE}
      invariant (forall i :: H.Stop !in others(i)) ==>
                  && Mine(t.view, fd, sig) == old(t.Takes(fd, sig))
                  && forall i | 0 <= i < parks :: Mine(asleep[i], fd, sig) == old(t.Takes(fd, sig))
      decreases PARK_TIMEOUT_MS - spent
    {
      if writable(parks) {
        match soError {
          case Failed(e) => r := Failed(e);
          case Count(e) => r := if e != 0 then Failed(e) else Count(0);
        }
        break;
      }
      if spent >= PARK_TIMEOUT_MS {
        break;
      }
      asleep := asleep + [t.view];
      Park(t, fd, sig, others(parks));
      spent := spent + PARK_SLICE_MS;
      parks := parks + 1;
    }
    var gone := t.Unregister(fd, sig);
  }

  /** The answer a retried call ends with: the first that is not would-block among fifty-one. */
  function Outcome(h: nat -> Answer, i: nat): Result
    requires i <= PARK_TIMEOUT_MS / PARK_SLICE_MS
    decreases PARK_TIMEOUT_MS / PARK_SLICE_MS - i
  {
    match h(i)
    case Bytes(n) => Count(n)
    case Error(e) => Failed(e)
    case WouldBlock => if i == PARK_TIMEOUT_MS / PARK_SLICE_MS then Failed(ETIMEDOUT) else Outcome(h, i + 1)
  }

  lemma {:induction false} OutcomeIs(h: nat -> Answer, i: nat, k: nat, r: Result)
    requires i <= k <= PARK_TIMEOUT_MS / PARK_SLICE_MS && forall j | i <= j < k :: h(j).WouldBlock?
    requires match h(k)
             case Bytes(n) => r == Count(n)
             case Error(e) => r == Failed(e)
             case WouldBlock => r == Failed(ETIMEDOUT) && k == PARK_TIMEOUT_MS / PARK_SLICE_MS
    ensures Outcome(h, i) == r
    decreases k - i
  {
    if i < k { OutcomeIs(h, i + 1, k, r); }
  }

  /** A host seen chunk by chunk: its answers to the tries of each call of hs_send. */
  type Host = (nat, nat) -> Answer

  /** What hs_send returns for chunk c. */
  function Chunk(host: Host, c: nat): Result
  {
    Outcome((i: nat) => host(c, i), 0)
  }

  /** The first k chunks all made progress. */
  ghost predicate Flowing(host: Host, k: nat)
  {
    forall c | 0 <= c < k :: Chunk(host, c).Count? && Chunk(host, c).n > 0
  }

  /** What the first k chunks took. */
  function Sent(host: Host, k: nat): nat
  {
    if k == 0 then 0 else Sent(host, k - 1) + (if Chunk(host, k - 1).Count? then Chunk(host, k - 1).n else 0)
  }

  /** The peer closes, or a call fails, at chunk k, with bytes still to go. */
  ghost predicate Stops(host: Host, len: nat, k: nat)
  {
    Flowing(host, k) && Sent(host, k) < len && (Chunk(host, k).Failed? || Chunk(host, k).n == 0)
  }

  /** What hs_send_all returns: the whole length once k chunks have taken it; or, when the sending
      stops at chunk k first, its error, or what the earlier chunks took if the peer closed. */
  ghost predicate Ends(host: Host, len: nat, r: Result, k: nat)
  {
    && Flowing(host, k) && (Sent(host, k) >= len || Stops(host, len, k))
    && (Sent(host, k) >= len ==> r == Count(len))
    && (Stops(host, len, k) ==> r == if Chunk(host, k).Failed? then Chunk(host, k) else Count(Sent(host, k)))
  }

  ghost predicate Returns(host: Host, len: nat, r: Result)
  {
    exists k :: Ends(host, len, r, k)
  }

  /** How often a retried call parks. */
  function Waits(h: nat -> Answer, i: nat): nat
    requires i <= PARK_TIMEOUT_MS / PARK_SLICE_MS
    decreases PARK_TIMEOUT_MS / PARK_SLICE_MS - i
  {
    if i == PARK_TIMEOUT_MS / PARK_SLICE_MS || !h(i).WouldBlock? then 0 else 1 + Waits(h, i + 1)
  }

  lemma {:induction false} WaitsIs(h: nat -> Answer, i: nat, k: nat)
    requires i <= k <= PARK_TIMEOUT_MS / PARK_SLICE_MS && forall j | i <= j < k :: h(j).WouldBlock?
    requires k == PARK_TIMEOUT_MS / PARK_SLICE_MS || !h(k).WouldBlock?
    ensures Waits(h, i) == k - i
    decreases k - i
  {
    if i < k { WaitsIs(h, i + 1, k); }
  }

  /** How often the first k chunks park. */
  function Waited(host: Host, k: nat): nat
  {
    if k == 0 then 0 else Waited(host, k - 1) + Waits((i: nat) => host(k - 1, i), 0)
  }

  lemma WaitedIs(host: Host, c: nat, parks: nat)
    requires var h := (i: nat) => host(c, i);
             && parks <= PARK_TIMEOUT_MS / PARK_SLICE_MS && (forall j | 0 <= j < parks :: h(j).WouldBlock?)
             && (parks == PARK_TIMEOUT_MS / PARK_SLICE_MS || !h(parks).WouldBlock?)
    ensures Waited(host, c + 1) == Waited(host, c) + parks
  {
    WaitsIs((i: nat) => host(c, i), 0, parks);
  }

  lemma NothingWaited(host: Host)
    ensures Waited(host, 0) == 0
  {
  }

  /** hs_send_all: what it returns, and each of its parks with the descriptor registered for writing. */
  method SendAll(t: Table, fd: int, len: nat, sig: nat, host: Host, others: (nat, nat) -> seq<H.Call>)
    returns (r: Result, ghost sleeps: seq<Parked>)
    requires t.Valid() && forall c, i, a | a in others(c, i) :: IsForeign(a, sig)
    modifies t, t.regs
    ensures t.Valid() && t.regs == old(t.regs)
    ensures Returns(host, len, r)
    ensures exists k: nat ::
              Ends(host, len, r, k) && |sleeps| == Waited(host, if Sent(host, k) >= len then k else k + 1)
    ensures forall p | p in sleeps :: RegisteredFor(p, fd, WRITE, sig)
    ensures Mine(t.view, fd, sig) ==> Mine(old(t.view), fd, sig)
  {
    hide TableOk, FiltersOk, Outcome, Waited, RegisteredFor;
    NothingWaited(host);
    var left: nat, chunk: nat := len, 0;
    sleeps := [];
    while left > 0
      invariant t.Valid() && t.regs == old(t.regs) && left <= len
      invariant Flowing(host, chunk) && if left > 0 then Sent(host, chunk) == len - left else Sent(host, chunk) >= len
      invariant Mine(t.view, fd, sig) ==> Mine(old(t.view), fd, sig)
      invariant forall p | p in sleeps :: RegisteredFor(p, fd, WRITE, sig)
      invariant |sleeps| == Waited(host, chunk)
      decreases left
    {
      var answer, parks, slept :=
        Transfer(t, fd, WRITE, sig, (i: nat) => host(chunk, i), (i: nat) => others(chunk, i));
      sleeps := sleeps + slept;
      WaitedIs(host, chunk, parks);
      OutcomeIs((i: nat) => host(chunk, i), 0, parks, answer);
      ChunkIs(host, chunk, answer);
      if answer.Failed? {
        assert Ends(host, len, answer, chunk);
        return answer, sleeps;
      }
      if answer.n == 0 {
        assert Ends(host, len, Count(len - left), chunk);
        return Count(len - left), sleeps;
      }
      left := left - if answer.n > left then left else answer.n;
      chunk := chunk + 1;
    }
    assert Ends(host, len, Count(len - left), chunk);
    return Count(len - left), sleeps;
  }

  lemma ChunkIs(host: Host, c: nat, r: Result)
    requires Outcome((i: nat) => host(c, i), 0) == r
    ensures Chunk(host, c) == r && Sent(host, c + 1) == Sent(host, c) + (if r.Count? then r.n else 0)
  {
  }

  lemma {:induction false} SentMono(host: Host, i: nat, j: nat)
    requires i <= j
    ensures Sent(host, i) <= Sent(host, j)
    decreases j
  {
    if i < j { SentMono(host, i, j - 1); }
  }

  /** The sending stops in one place at most, and not once everything has gone. */
  lemma StopsOnce(host: Host, len: nat, k: nat, j: nat)
    requires Stops(host, len, k) && Flowing(host, j) && (Sent(host, j) >= len || Stops(host, len, j))
    ensures j == k
  {
    if j < k {
      SentMono(host, j, k);
    }
  }

  /** The whole length comes back exactly when no chunk fails or is refused before it has gone. */
  lemma FullIffNothingStops(host: Host, len: nat, r: Result)
    requires Returns(host, len, r)
    ensures r == Count(len) <==> forall k: nat :: !Stops(host, len, k)
  {
    var j :| Ends(host, len, r, j);
    forall k: nat | Stops(host, len, k) ensures k == j { StopsOnce(host, len, k, j); }
  }

  /** A peer that closes at chunk k leaves the sum of the earlier chunks: the 0 the comment above
      the source promises exactly when it closes at the first. */
  lemma EarlyCloseReturns(host: Host, len: nat, r: Result, k: nat)
    requires Returns(host, len, r) && Stops(host, len, k) && Chunk(host, k).Count?
    ensures r == Count(Sent(host, k)) && (r == Count(0) <==> k == 0)
  {
    var j :| Ends(host, len, r, j);
    StopsOnce(host, len, k, j);
    if k > 0 {
      SentMono(host, 1, k);
      assert Chunk(host, 0).n > 0 && Sent(host, 1) == Sent(host, 0) + Chunk(host, 0).n;
    }
  }

  /** For a send that has bytes to go, 0 comes back exactly when the peer closes at the first chunk. */
  lemma ZeroIffClosedAtOnce(host: Host, len: nat, r: Result)
    requires Returns(host, len, r) && len > 0
    ensures r == Count(0) <==> Chunk(host, 0) == Count(0)
  {
    if Chunk(host, 0) == Count(0) {
      assert Stops(host, len, 0);
      EarlyCloseReturns(host, len, r, 0);
    } else if k: nat :| Stops(host, len, k) && Chunk(host, k).Count? {
      EarlyCloseReturns(host, len, r, k);
    }
  }

  /** One byte taken of two and then the peer gone: the result is 1. */
  lemma PartialCountAtEarlyClose(r: Result)
    requires Returns((c, i) => if c == 0 then Bytes(1) else Bytes(0), 2, r)
    ensures r == Count(1)
  {
    var host: Host := (c, i) => if c == 0 then Bytes(1) else Bytes(0);
    assert Chunk(host, 0) == Count(1) && Chunk(host, 1) == Count(0);
    assert Sent(host, 1) == Sent(host, 0) + 1;
    assert Stops(host, 2, 1);
    EarlyCloseReturns(host, 2, r, 1);
  }
}
