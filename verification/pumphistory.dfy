/** Any sequence of calls on the registration table, by any tasks and by the pump thread, and what
    becomes of each readiness stashed. */
module PumpHistory {
  import opened Pump

  datatype Call =
    | Register(fd: int, want: set<Dir>, sig: nat) | Unregister(fd: int, sig: nat)
    | Event(fd: int, dir: Dir, slot: nat) | Drain(sig: nat, max: int) | Stop | Start(started: bool)

  /** A call and what it answered: a success, whom an event woke, what a drain reported. */
  datatype Done =
    | Registered(fd: int, want: set<Dir>, sig: nat, ok: bool) | Unregistered(fd: int, sig: nat, ok: bool)
    | Happened(fd: int, dir: Dir, woke: nat) | Drained(sig: nat, max: int, out: seq<Report>)
    | Stopped | Started(ok: bool)

  predicate Answers(d: Done, c: Call)
  {
    match c
    case Register(fd, want, sig) => d.Registered? && d.fd == fd && d.want == want && d.sig == sig
    case Unregister(fd, sig) => d.Unregistered? && d.fd == fd && d.sig == sig
    case Event(fd, dir, slot) => d.Happened? && d.fd == fd && d.dir == dir && (slot >= MAX_REGS ==> d.woke == NOBODY)
    case Drain(sig, max) => d.Drained? && d.sig == sig && d.max == max
    case Stop => d == Stopped
    case Start(_) => d.Started?
  }

  /** What the table means after a call that answered so. */
  function After(v: View, d: Done): View
  {
    match d
    case Registered(fd, want, sig, ok) =>
      if ok then Wanting(v, fd, want, sig) else v
    case Unregistered(fd, sig, ok) => if ok && fd in v && v[fd].sig == sig then v - {fd} else v
    case Happened(fd, dir, woke) =>
      if woke != NOBODY && fd in v then v[fd := v[fd].(ready := v[fd].ready + {dir})] else v
    case Drained(_, _, out) => Emptied(v, Fds(out))
    case Stopped => map[]
    case Started(_) => v
  }

  /** What a table meaning v can answer. */
  ghost predicate Allowed(v: View, d: Done)
  {
    match d
    case Registered(fd, _, sig, ok) => ok ==> sig != NOBODY && (fd in v ==> v[fd].sig == sig)
    case Happened(fd, dir, woke) => woke != NOBODY ==> fd in v && v[fd].sig == woke && dir in v[fd].want
    case Drained(sig, max, out) =>
      && |out| <= (if max > 0 then max else 0)
      && (forall r | r in out :: Due(v, sig, r.fd) && r.ready == v[r.fd].ready)
      && (forall i, j | 0 <= i < j < |out| :: out[i].fd != out[j].fd)
      && (|out| < max ==> forall fd | Due(v, sig, fd) :: fd in Fds(out))
    case _ => true
  }

  method Perform(t: Table, c: Call) returns (d: Done)
    requires t.Valid()
    modifies t, t.regs
    ensures t.Valid() && t.regs == old(t.regs)
    ensures Answers(d, c) && Allowed(old(t.view), d) && t.view == After(old(t.view), d)
  {
    hide TableOk, FiltersOk, Emptied;
    match c
    case Register(fd, want, sig) =>
      var ok := t.Register(fd, want, sig);
      d := Registered(fd, want, sig, ok);
    case Unregister(fd, sig) =>
      var ok := t.Unregister(fd, sig);
      d := Unregistered(fd, sig, ok);
    case Event(fd, dir, slot) =>
      d := Happened(fd, dir, NOBODY);
      if slot < MAX_REGS {
        var woke := t.Event(fd, dir, slot);
        d := Happened(fd, dir, woke);
      }
    case Drain(sig, max) =>
      var out := t.Drain(sig, max);
      d := Drained(sig, max, out);
    case Stop =>
      t.Stop();
      d := Stopped;
    case Start(started) =>
      var ok := t.Start(started);
      d := Started(ok);
  }

  // ---- histories -----------------------------------------------------------------------

  function Recount(v: View, h: seq<Done>): View
  {
    if h == [] then v else After(Recount(v, h[..|h| - 1]), h[|h| - 1])
  }

  ghost predicate Plausible(v: View, h: seq<Done>)
  {
    forall i | 0 <= i < |h| :: Allowed(Recount(v, h[..i]), h[i])
  }

  /** The calls themselves, one after another on the table. */
  method Replay(t: Table, calls: seq<Call>) returns (h: seq<Done>)
    requires t.Valid()
    modifies t, t.regs
    ensures t.Valid() && t.regs == old(t.regs)
    ensures |h| == |calls| && forall i | 0 <= i < |h| :: Answers(h[i], calls[i])
    ensures Plausible(old(t.view), h) && t.view == Recount(old(t.view), h)
  {
    hide TableOk, FiltersOk, Allowed, After, Answers;
    h := [];
    for i := 0 to |calls|
      invariant t.Valid() && t.regs == old(t.regs)
      invariant |h| == i && forall j | 0 <= j < i :: Answers(h[j], calls[j])
      invariant Plausible(old(t.view), h) && t.view == Recount(old(t.view), h)
    {
      ghost var before := h;
      var d := Perform(t, calls[i]);
      h := h + [d];
      assert h[..|h| - 1] == before;
      forall j | 0 <= j < |h| ensures Allowed(Recount(old(t.view), h[..j]), h[j]) {
        assert h[..j] == before[..j];
        if j < i { assert h[j] == before[j]; }
      }
    }
  }

  /** Direction dir of the descriptor is stashed. */
  predicate Stash(v: View, fd: int, dir: Dir)
  {
    fd in v && dir in v[fd].ready
  }

  /** The call stashed it: an event that woke its owner. */
  predicate Stashes(d: Done, fd: int, dir: Dir)
  {
    d.Happened? && d.fd == fd && d.dir == dir && d.woke != NOBODY
  }

  predicate Reports(d: Done, fd: int, dir: Dir)
  {
    d.Drained? && exists r :: r in d.out && r.fd == fd && dir in r.ready
  }

  /** The call drops what is stashed for a descriptor of sig. */
  predicate Drops(d: Done, fd: int, sig: nat)
  {
    d.Stopped? || (d.Unregistered? && d.ok && d.fd == fd && d.sig == sig)
  }

  /** One call's effect on one stash: made by an event, ended by a report or a drop, and otherwise
      left alone; and what is reported was there. */
  lemma StashStep(v: View, d: Done, fd: int, dir: Dir)
    requires Allowed(v, d)
    ensures Stash(After(v, d), fd, dir) <==>
              Stashes(d, fd, dir) || (Stash(v, fd, dir) && !Reports(d, fd, dir) && !Drops(d, fd, v[fd].sig))
    ensures Reports(d, fd, dir) ==> Stash(v, fd, dir)
    ensures Stash(v, fd, dir) && Stash(After(v, d), fd, dir) ==> After(v, d)[fd].sig == v[fd].sig
  {
  }

  lemma Prefix(v: View, h: seq<Done>, i: nat)
    requires Plausible(v, h) && i < |h|
    ensures Recount(v, h[..i + 1]) == After(Recount(v, h[..i]), h[i]) && Allowed(Recount(v, h[..i]), h[i])
  {
    assert h[..i + 1][..i] == h[..i];
  }

  /** What is not stashed stays so until an event stashes it. */
  lemma {:induction false} GoneUntilStashed(v: View, h: seq<Done>, i: nat, j: nat, fd: int, dir: Dir)
    requires Plausible(v, h) && i <= j <= |h| && !Stash(Recount(v, h[..i]), fd, dir)
    requires forall k | i <= k < j :: !Stashes(h[k], fd, dir)
    ensures !Stash(Recount(v, h[..j]), fd, dir)
    decreases j
  {
    hide Allowed, After, Recount, Plausible, Stash;
    if i < j {
      GoneUntilStashed(v, h, i, j - 1, fd, dir);
      Prefix(v, h, j - 1);
      StashStep(Recount(v, h[..j - 1]), h[j - 1], fd, dir);
    }
  }

  /** Readiness is reported at most once for each time it is stashed: between two reports of it an
      event has stashed it anew. */
  lemma ReportedOnce(v: View, h: seq<Done>, i: nat, j: nat, fd: int, dir: Dir)
    requires Plausible(v, h) && i < j < |h| && Reports(h[i], fd, dir) && Reports(h[j], fd, dir)
    ensures exists k :: i < k < j && Stashes(h[k], fd, dir)
  {
    hide Allowed, After, Recount, Plausible, Stash;
    Prefix(v, h, i);
    Prefix(v, h, j);
    StashStep(Recount(v, h[..i]), h[i], fd, dir);
    StashStep(Recount(v, h[..j]), h[j], fd, dir);
    if forall k | i + 1 <= k < j :: !Stashes(h[k], fd, dir) { GoneUntilStashed(v, h, i + 1, j, fd, dir); }
  }

  /** And never without: what is reported was stashed by an earlier event, or at the start. */
  lemma ReportedWasStashed(v: View, h: seq<Done>, j: nat, fd: int, dir: Dir)
    requires Plausible(v, h) && j < |h| && Reports(h[j], fd, dir)
    ensures Stash(v, fd, dir) || exists k :: 0 <= k < j && Stashes(h[k], fd, dir)
  {
    hide Allowed, After, Plausible, Stash;
    Prefix(v, h, j);
    StashStep(Recount(v, h[..j]), h[j], fd, dir);
    if !Stash(v, fd, dir) && forall k | 0 <= k < j :: !Stashes(h[k], fd, dir) {
      assert h[..0] == [];
      GoneUntilStashed(v, h, 0, j, fd, dir);
    }
  }

  /** What becomes of a stash: until a drain reports it, or its owner unregisters or the pump stops,
      it stays, for the owner the event woke. */
  lemma {:induction false} StashStays(v: View, h: seq<Done>, k: nat, j: nat, fd: int, dir: Dir)
    requires Plausible(v, h) && k < j <= |h| && Stashes(h[k], fd, dir)
    requires forall i | k < i < j :: !Reports(h[i], fd, dir) && !Drops(h[i], fd, h[k].woke)
    ensures Stash(Recount(v, h[..j]), fd, dir) && Recount(v, h[..j])[fd].sig == h[k].woke
    decreases j
  {
    hide Allowed, After, Recount, Plausible, Reports, Drops;
    if j == k + 1 {
      Prefix(v, h, k);
      StashMade(Recount(v, h[..k]), h[k], fd, dir);
    } else {
      StashStays(v, h, k, j - 1, fd, dir);
      Prefix(v, h, j - 1);
      StashStep(Recount(v, h[..j - 1]), h[j - 1], fd, dir);
    }
  }

  lemma StashMade(v: View, d: Done, fd: int, dir: Dir)
    requires Allowed(v, d) && Stashes(d, fd, dir)
    ensures Stash(After(v, d), fd, dir) && After(v, d)[fd].sig == d.woke
  {
  }

  /** No readiness is lost: once its owner has drained with room to spare, it has been reported,
      unless the owner unregistered the descriptor or the pump was stopped. */
  lemma NoneLost(v: View, h: seq<Done>, k: nat, j: nat, fd: int, dir: Dir)
    requires Plausible(v, h) && k < j < |h| && Stashes(h[k], fd, dir)
    requires h[j].Drained? && h[j].sig == h[k].woke && |h[j].out| < h[j].max
    requires forall i | k < i < j :: !Drops(h[i], fd, h[k].woke)
    ensures exists i :: k < i <= j && Reports(h[i], fd, dir)
  {
    hide After, Recount, Plausible;
    if forall i | k < i < j :: !Reports(h[i], fd, dir) {
      StashStays(v, h, k, j, fd, dir);
      Prefix(v, h, j);
      var w := Recount(v, h[..j]);
      assert Due(w, h[j].sig, fd);
      assert fd in Fds(h[j].out);
      assert Reports(h[j], fd, dir);
    }
  }
}
