/** The readiness pump's registration table and the kqueue filters that mirror it. */
module Pump {
  import opened Types

  datatype Dir = READ | WRITE

  /** One registration, as the caller made it and with what has been seen ready since. */
  datatype Entry = Entry(want: set<Dir>, ready: set<Dir>, sig: nat)

  /** struct Reg */
  datatype Reg = Reg(fd: int, want: set<Dir>, ready: set<Dir>, sig: nat, inUse: bool)

  datatype Report = Report(fd: int, ready: set<Dir>)

  const MAX_REGS: nat := 256
  const NOBODY: nat := 0        // a null PumpSig
  const CLEARED := Reg(0, {}, {}, NOBODY, false)

  /** What the table means: an owner and its directions for each descriptor. */
  type View = map<int, Entry>

  /** Slot i of the table says what the view says of its descriptor. */
  predicate SlotOk(r: Reg, view: View)
  {
    r.inUse ==> r.sig != NOBODY && r.fd in view && view[r.fd] == Entry(r.want, r.ready, r.sig)
  }

  ghost predicate TableOk(regs: seq<Reg>, view: View)
  {
    && (forall i | 0 <= i < |regs| :: SlotOk(regs[i], view))
    && (forall i, j | 0 <= i < j < |regs| && regs[i].inUse && regs[j].inUse :: regs[i].fd != regs[j].fd)
    && (forall fd | fd in view :: exists i :: Holds(regs, i, fd))
  }

  ghost predicate Holds(regs: seq<Reg>, i: nat, fd: int)
  {
    i < |regs| && regs[i].inUse && regs[i].fd == fd
  }

  /** The filters installed are exactly the wanted directions, each routed to its slot. */
  ghost predicate FiltersOk(regs: seq<Reg>, filters: map<(int, Dir), nat>)
  {
    && (forall i, d | 0 <= i < |regs| && regs[i].inUse && d in regs[i].want ::
          (regs[i].fd, d) in filters && filters[(regs[i].fd, d)] == i)
    && (forall f | f in filters :: Holds(regs, filters[f], f.0) && f.1 in regs[filters[f]].want)
  }

  class Table {
    var regs: array<Reg>
    var filters: map<(int, Dir), nat>
    var running: bool           // the kqueue exists
    ghost var view: View

    ghost predicate Valid()
      reads this, regs
    {
      && regs.Length == MAX_REGS && TableOk(regs[..], view) && FiltersOk(regs[..], filters)
      && (!running ==> view == map[] && filters == map[])
    }

    /** An empty table with the pump started. */
    constructor ()
      ensures Valid() && fresh(regs) && view == map[] && running
    {
      regs := new Reg[MAX_REGS](_ => CLEARED);
      filters, running, view := map[], true, map[];
    }

    /** find_reg */
    method FindReg(fd: int, sig: nat) returns (i: Option<nat>)
      requires Valid()
      ensures i.Some? <==> fd in view && view[fd].sig == sig
      ensures i.Some? ==> Holds(regs[..], i.value, fd)
    {
      var k := 0;
      while k < MAX_REGS
        invariant k <= MAX_REGS
        invariant forall j | 0 <= j < k :: !(regs[j].inUse && regs[j].fd == fd && regs[j].sig == sig)
      {
        if regs[k].inUse && regs[k].fd == fd && regs[k].sig == sig {
          assert SlotOk(regs[..][k], view);
          return Some(k);
        }
        k := k + 1;
      }
      if fd in view {
        ghost var j: nat :| Holds(regs[..], j, fd);
        assert SlotOk(regs[..][j], view);
      }
      return None;
    }

    /** find_fd_owner, reduced to whether there is one. */
    method HasOwner(fd: int) returns (owned: bool)
      requires Valid()
      ensures owned <==> fd in view
    {
      var k := 0;
      while k < MAX_REGS
        invariant k <= MAX_REGS
        invariant forall j | 0 <= j < k :: !(regs[j].inUse && regs[j].fd == fd)
      {
        if regs[k].inUse && regs[k].fd == fd {
          assert SlotOk(regs[..][k], view);
          return true;
        }
        k := k + 1;
      }
      assert forall j :: !Holds(regs[..], j, fd);
      return false;
    }

    method FindFree() returns (i: Option<nat>)
      requires Valid()
      ensures i.Some? ==> i.value < MAX_REGS && !regs[i.value].inUse
      ensures i.None? ==> forall j | 0 <= j < MAX_REGS :: regs[j].inUse
    {
      var k := 0;
      while k < MAX_REGS
        invariant k <= MAX_REGS && forall j | 0 <= j < k :: regs[j].inUse
      {
        if !regs[k].inUse {
          return Some(k);
        }
        k := k + 1;
      }
      return None;
    }

    /** Every slot is taken. */
    ghost predicate Full()
      reads this, regs
    {
      forall i | 0 <= i < regs.Length :: regs[i].inUse
    }

    /** A registration of fd for sig would be accepted. */
    ghost predicate Takes(fd: int, sig: nat)
      reads this, regs
    {
      sig != NOBODY && running && (if fd in view then view[fd].sig == sig else !Full())
    }

    /** set_filter for both directions of a registration in slot i. */
    method ApplyFilters(i: nat)
      requires i < regs.Length
      modifies this`filters
      ensures filters == Applied(old(filters), regs[i].fd, regs[i].want, i)
    {
      var r := regs[i];
      if READ in r.want { filters := filters[(r.fd, READ) := i]; } else { filters := filters - {(r.fd, READ)}; }
      if WRITE in r.want { filters := filters[(r.fd, WRITE) := i]; } else { filters := filters - {(r.fd, WRITE)}; }
    }

    /** pump_register: false is its -1. */
    method Register(fd: int, want: set<Dir>, sig: nat) returns (ok: bool)
      requires Valid()
      modifies this`filters, this`view, regs
      ensures Valid() && regs == old(regs)
      ensures ok <==> old(Takes(fd, sig))
      ensures !ok ==> view == old(view) && filters == old(filters) && regs[..] == old(regs[..])
      ensures ok ==> view == Wanting(old(view), fd, want, sig)
    {
      if sig == NOBODY || !running {
        return false;
      }
      var found := FindReg(fd, sig);
      var slot;
      if found.None? {
        var owned := HasOwner(fd);
        if owned {
          return false;
        }
        var free := FindFree();
        if free.None? {
          return false;
        }
        slot := free.value;
        regs[slot] := Reg(fd, {}, {}, sig, true);
      } else {
        slot := found.value;
      }
      RegisterKeeps(old(regs[..]), old(view), old(filters), slot, fd, want, sig);
      regs[slot] := regs[slot].(want := want);
      ApplyFilters(slot);
      view := view[fd := Entry(want, if fd in view then view[fd].ready else {}, sig)];
      assert regs[..] ==
             old(regs[..])[slot := Reg(fd, want, if fd in old(view) then old(view)[fd].ready else {}, sig, true)];
      return true;
    }

    /** pump_unregister: only the owner's call does anything. */
    method Unregister(fd: int, sig: nat) returns (ok: bool)
      requires Valid()
      modifies this`filters, this`view, regs
      ensures Valid() && regs == old(regs) && ok == running
      ensures view == if running && fd in old(view) && old(view)[fd].sig == sig then old(view) - {fd} else old(view)
      ensures !(running && fd in old(view) && old(view)[fd].sig == sig) ==>
                filters == old(filters) && regs[..] == old(regs[..])
    {
      if !running {
        return false;
      }
      var found := FindReg(fd, sig);
      if found.Some? {
        UnregisterKeeps(old(regs[..]), old(view), old(filters), found.value, fd);
        filters := filters - {(fd, READ)} - {(fd, WRITE)};
        regs[found.value] := CLEARED;
        view := view - {fd};
        assert regs[..] == old(regs[..])[found.value := CLEARED];
      }
      return true;
    }

    /** One event in pump_main: (ident, direction) with the slot it was routed to, possibly stale.
        Readiness is stashed for the owner, who is woken, only if the slot still holds that
        descriptor and still wants that direction. */
    method Event(ident: int, dir: Dir, slot: nat) returns (sig: nat)
      requires Valid() && slot < MAX_REGS
      modifies this`view, regs
      ensures Valid() && regs == old(regs)
      ensures sig == NOBODY ==> view == old(view) && regs[..] == old(regs[..])
      ensures sig != NOBODY ==>
                && ident in old(view) && sig == old(view)[ident].sig && dir in old(view)[ident].want
                && view == old(view)[ident := old(view)[ident].(ready := old(view)[ident].ready + {dir})]
      ensures sig != NOBODY <==> Holds(old(regs[..]), slot, ident) && dir in old(regs[slot]).want
    {
      var r := regs[slot];
      sig := NOBODY;
      if r.inUse && r.fd == ident && dir in r.want {
        assert SlotOk(regs[..][slot], view);
        ReadyKeeps(old(regs[..]), old(view), old(filters), slot, r.ready + {dir});
        regs[slot] := r.(ready := r.ready + {dir});
        view := view[ident := view[ident].(ready := view[ident].ready + {dir})];
        assert regs[..] == old(regs[..])[slot := r.(ready := r.ready + {dir})];
        sig := r.sig;
      }
    }

    /** pump_start: false is its -1. `started`: the host lets the kqueue, the control pipe and the
        thread be made. A running pump is left alone; a new kqueue has no filters. */
    method Start(started: bool) returns (ok: bool)
      requires Valid()
      modifies this`running, this`filters
      ensures Valid() && view == old(view) && running == ok
      ensures ok <==> old(running) || started
      ensures filters == if old(running) then old(filters) else map[]
    {
      if running {
        return true;
      }
      filters := map[];
      if !started {
        return false;
      }
      running := true;
      return true;
    }

    /** The end of pump_stop: the kqueue is closed and every registration forgotten. */
    method Stop()
      requires Valid()
      modifies this, regs
      ensures Valid() && regs == old(regs) && !running && view == map[] && filters == map[]
    {
      if !running {
        return;
      }
      running, filters, view := false, map[], map[];
      forall i | 0 <= i < regs.Length {
        regs[i] := CLEARED;
      }
      assert forall i | 0 <= i < |regs[..]| :: !regs[..][i].inUse;
    }

    /** pump_drain: the readiness stashed for sig, at most max reports, each stash emptied as it
        is reported. */
    method Drain(sig: nat, max: int) returns (out: seq<Report>)
      requires Valid()
      modifies this`view, regs
      ensures Valid() && regs == old(regs)
      ensures |out| <= if max > 0 then max else 0
      ensures forall r | r in out :: Due(old(view), sig, r.fd) && r.ready == old(view)[r.fd].ready
      ensures forall i, j | 0 <= i < j < |out| :: out[i].fd != out[j].fd
      ensures view == Emptied(old(view), Fds(out))
      ensures |out| < max ==> forall fd | Due(old(view), sig, fd) :: fd in Fds(out)
    {
      hide TableOk, FiltersOk, Emptied, Fds, Holds;
      out := [];
      if sig == NOBODY {
        NothingEmptied(view);
        assert forall fd | fd in view :: view[fd].sig != NOBODY by { NobodyOwns(regs[..], view); }
        return;
      }
      var i := 0;
      NothingEmptied(view);
      while i < MAX_REGS && |out| < max
        invariant i <= MAX_REGS && Valid() && regs == old(regs)
        invariant |out| <= if max > 0 then max else 0
        invariant forall r | r in out :: Due(old(view), sig, r.fd) && r.ready == old(view)[r.fd].ready
        invariant forall j, k | 0 <= j < k < |out| :: out[j].fd != out[k].fd
        invariant view == Emptied(old(view), Fds(out))
        invariant forall j | 0 <= j < MAX_REGS :: regs[j].inUse == old(regs[j]).inUse && regs[j].fd == old(regs[j]).fd
        invariant forall j | 0 <= j < i :: regs[j].inUse && regs[j].sig == sig ==> regs[j].ready == {}
        invariant forall j | i <= j < MAX_REGS && regs[j].inUse :: regs[j].fd !in Fds(out)
      {
        var r := regs[i];
        if r.inUse && r.sig == sig && r.ready != {} {
          ghost var was := regs[..];
          ghost var before := out;
          SlotAt(was, view, i);
          ReadyKeeps(was, view, filters, i, {});
          NotElsewhere(was, view, i);
          StillDue(old(view), view, out, r.fd);
          out := out + [Report(r.fd, r.ready)];
          regs[i] := r.(ready := {});
          assert regs[..] == was[i := r.(ready := {})];
          EmptiedOne(old(view), before, r.fd, r.ready);
          view := view[r.fd := view[r.fd].(ready := {})];
          forall j | i + 1 <= j < MAX_REGS && regs[j].inUse ensures regs[j].fd !in Fds(out) {
            assert was[j].fd != r.fd;
            FdsPlus(before, r.fd, r.ready);
          }
        }
        i := i + 1;
      }
      if |out| < max { AllReported(regs[..], old(view), view, sig, out); }
    }
  }

  /** The table once fd is registered for sig, keeping what is stashed. */
  function Wanting(view: View, fd: int, want: set<Dir>, sig: nat): View
  {
    view[fd := Entry(want, if fd in view then view[fd].ready else {}, sig)]
  }

  /** A registration of sig with something to report. */
  predicate Due(view: View, sig: nat, fd: int)
  {
    fd in view && view[fd].sig == sig && view[fd].ready != {}
  }

  function Fds(out: seq<Report>): set<int>
  {
    set r | r in out :: r.fd
  }

  function Emptied(view: View, fds: set<int>): View
  {
    map fd | fd in view :: if fd in fds then view[fd].(ready := {}) else view[fd]
  }

  lemma SlotAt(regs: seq<Reg>, view: View, i: nat)
    requires TableOk(regs, view) && i < |regs|
    ensures SlotOk(regs[i], view)
  {
  }

  lemma NotElsewhere(regs: seq<Reg>, view: View, i: nat)
    requires TableOk(regs, view) && i < |regs| && regs[i].inUse
    ensures forall j | 0 <= j < |regs| && j != i && regs[j].inUse :: regs[j].fd != regs[i].fd
  {
    SlotAt(regs, view, i);
    OnlyHere(regs, view, i, regs[i].fd);
    forall j | 0 <= j < |regs| && j != i && regs[j].inUse ensures regs[j].fd != regs[i].fd {
      assert !Holds(regs, j, regs[i].fd);
    }
  }

  /** What is still stashed for a descriptor not yet reported is what was stashed at first. */
  lemma StillDue(was: View, view: View, out: seq<Report>, fd: int)
    requires view == Emptied(was, Fds(out)) && fd in view && fd !in Fds(out)
    ensures fd in was && view[fd] == was[fd]
    ensures forall r | r in out :: r.fd != fd
  {
  }

  lemma NothingEmptied(view: View)
    ensures Emptied(view, Fds([])) == view && Fds([]) == {}
  {
  }

  lemma NobodyOwns(regs: seq<Reg>, view: View)
    requires TableOk(regs, view)
    ensures forall fd | fd in view :: view[fd].sig != NOBODY
  {
    forall fd | fd in view ensures view[fd].sig != NOBODY {
      var i: nat :| Holds(regs, i, fd);
      assert SlotOk(regs[i], view);
    }
  }

  lemma FdsPlus(out: seq<Report>, fd: int, ready: set<Dir>)
    ensures Fds(out + [Report(fd, ready)]) == Fds(out) + {fd}
  {
    var more := out + [Report(fd, ready)];
    assert more[|out|] == Report(fd, ready);
    forall x | x in Fds(out) ensures x in Fds(more) {
      var r :| r in out && r.fd == x;
      assert r in more;
    }
  }

  lemma EmptiedOne(view: View, out: seq<Report>, fd: int, ready: set<Dir>)
    requires fd in view
    ensures var v := Emptied(view, Fds(out));
            fd in v && v[fd := v[fd].(ready := {})] == Emptied(view, Fds(out + [Report(fd, ready)]))
  {
    FdsPlus(out, fd, ready);
  }

  lemma AllReported(regs: seq<Reg>, was: View, view: View, sig: nat, out: seq<Report>)
    requires TableOk(regs, view) && view == Emptied(was, Fds(out))
    requires forall j | 0 <= j < |regs| :: regs[j].inUse && regs[j].sig == sig ==> regs[j].ready == {}
    ensures forall fd | Due(was, sig, fd) :: fd in Fds(out)
  {
    forall fd | Due(was, sig, fd) ensures fd in Fds(out) {
      assert fd in view;
      var i: nat :| Holds(regs, i, fd);
      assert SlotOk(regs[i], view);
    }
  }

  function Applied(filters: map<(int, Dir), nat>, fd: int, want: set<Dir>, i: nat): map<(int, Dir), nat>
  {
    var f := if READ in want then filters[(fd, READ) := i] else filters - {(fd, READ)};
    if WRITE in want then f[(fd, WRITE) := i] else f - {(fd, WRITE)}
  }

  lemma RegisterKeeps(regs: seq<Reg>, view: View, filters: map<(int, Dir), nat>, i: nat, fd: int, want: set<Dir>,
      sig: nat)
    requires TableOk(regs, view) && FiltersOk(regs, filters) && i < |regs| && sig != NOBODY
    requires if regs[i].inUse then regs[i].fd == fd && regs[i].sig == sig else fd !in view
    ensures var ready := if fd in view then view[fd].ready else {};
            var regs' := regs[i := Reg(fd, want, ready, sig, true)];
            && TableOk(regs', view[fd := Entry(want, ready, sig)])
            && FiltersOk(regs', Applied(filters, fd, want, i))
    ensures regs[i].inUse ==> fd in view && regs[i].ready == view[fd].ready
  {
    var ready := if fd in view then view[fd].ready else {};
    var regs' := regs[i := Reg(fd, want, ready, sig, true)];
    var view' := view[fd := Entry(want, ready, sig)];
    OnlyHere(regs, view, i, fd);
    assert SlotOk(regs[i], view);
    TableSet(regs, view, i, fd, Entry(want, ready, sig));
    FiltersSet(regs, filters, i, fd, Reg(fd, want, ready, sig, true));
  }

  /** No other slot holds the descriptor. */
  lemma OnlyHere(regs: seq<Reg>, view: View, i: nat, fd: int)
    requires TableOk(regs, view) && i < |regs|
    requires if regs[i].inUse then regs[i].fd == fd else fd !in view
    ensures forall j | 0 <= j < |regs| && j != i :: !Holds(regs, j, fd)
  {
    forall j | 0 <= j < |regs| && j != i ensures !Holds(regs, j, fd) {
      assert SlotOk(regs[j], view);
    }
  }

  lemma TableSet(regs: seq<Reg>, view: View, i: nat, fd: int, e: Entry)
    requires TableOk(regs, view) && i < |regs| && e.sig != NOBODY
    requires forall j | 0 <= j < |regs| && j != i :: !Holds(regs, j, fd)
    requires regs[i].inUse ==> regs[i].fd == fd
    ensures TableOk(regs[i := Reg(fd, e.want, e.ready, e.sig, true)], view[fd := e])
  {
    var regs', view' := regs[i := Reg(fd, e.want, e.ready, e.sig, true)], view[fd := e];
    forall j | 0 <= j < |regs'| ensures SlotOk(regs'[j], view') {
      assert SlotOk(regs[j], view);
      assert j != i ==> !Holds(regs, j, fd);
    }
    forall j, k | 0 <= j < k < |regs'| && regs'[j].inUse && regs'[k].inUse ensures regs'[j].fd != regs'[k].fd {
      assert j != i ==> !Holds(regs, j, fd);
      assert k != i ==> !Holds(regs, k, fd);
    }
    forall x | x in view' ensures exists j :: Holds(regs', j, x) {
      if x == fd {
        assert Holds(regs', i, fd);
      } else {
        var j :| Holds(regs, j, x);
        assert Holds(regs', j, x);
      }
    }
  }

  lemma FiltersSet(regs: seq<Reg>, filters: map<(int, Dir), nat>, i: nat, fd: int, r: Reg)
    requires FiltersOk(regs, filters) && i < |regs| && r.fd == fd && r.inUse
    requires forall j | 0 <= j < |regs| && j != i :: !Holds(regs, j, fd)
    requires regs[i].inUse ==> regs[i].fd == fd
    ensures FiltersOk(regs[i := r], Applied(filters, fd, r.want, i))
  {
    var regs', filters' := regs[i := r], Applied(filters, fd, r.want, i);
    forall j, d | 0 <= j < |regs'| && regs'[j].inUse && d in regs'[j].want
      ensures (regs'[j].fd, d) in filters' && filters'[(regs'[j].fd, d)] == j
    {
      assert d == READ || d == WRITE;
      assert j != i ==> !Holds(regs, j, fd);
    }
    forall f | f in filters' ensures Holds(regs', filters'[f], f.0) && f.1 in regs'[filters'[f]].want {
      assert f.1 == READ || f.1 == WRITE;
      if f.0 != fd { assert f in filters && filters'[f] == filters[f]; }
    }
  }

  lemma UnregisterKeeps(regs: seq<Reg>, view: View, filters: map<(int, Dir), nat>, i: nat, fd: int)
    requires TableOk(regs, view) && FiltersOk(regs, filters) && Holds(regs, i, fd)
    ensures TableOk(regs[i := CLEARED], view - {fd})
    ensures FiltersOk(regs[i := CLEARED], filters - {(fd, READ)} - {(fd, WRITE)})
  {
    hide TableOk, FiltersOk;
    OnlyHere(regs, view, i, fd);
    TableCleared(regs, view, i, fd);
    FiltersCleared(regs, filters, i, fd);
  }

  lemma TableCleared(regs: seq<Reg>, view: View, i: nat, fd: int)
    requires TableOk(regs, view) && Holds(regs, i, fd)
    requires forall j | 0 <= j < |regs| && j != i :: !Holds(regs, j, fd)
    ensures TableOk(regs[i := CLEARED], view - {fd})
  {
    var regs', view' := regs[i := CLEARED], view - {fd};
    forall j | 0 <= j < |regs'| ensures SlotOk(regs'[j], view') {
      assert SlotOk(regs[j], view);
      assert j != i ==> !Holds(regs, j, fd);
    }
    forall x | x in view' ensures exists j :: Holds(regs', j, x) {
      var j :| Holds(regs, j, x);
      assert Holds(regs', j, x);
    }
  }

  lemma FiltersCleared(regs: seq<Reg>, filters: map<(int, Dir), nat>, i: nat, fd: int)
    requires FiltersOk(regs, filters) && Holds(regs, i, fd)
    requires forall j | 0 <= j < |regs| && j != i :: !Holds(regs, j, fd)
    ensures FiltersOk(regs[i := CLEARED], filters - {(fd, READ)} - {(fd, WRITE)})
  {
    var regs', filters' := regs[i := CLEARED], filters - {(fd, READ)} - {(fd, WRITE)};
    forall j, d | 0 <= j < |regs'| && regs'[j].inUse && d in regs'[j].want
      ensures (regs'[j].fd, d) in filters' && filters'[(regs'[j].fd, d)] == j
    {
      assert j != i ==> !Holds(regs, j, fd);
    }
    forall f | f in filters' ensures Holds(regs', filters'[f], f.0) && f.1 in regs'[filters'[f]].want {
      assert f in filters && Holds(regs, filters[f], f.0);
      assert f.1 == READ || f.1 == WRITE;
    }
  }

  /** Changing what has been seen ready touches no filter. */
  lemma ReadyKeeps(regs: seq<Reg>, view: View, filters: map<(int, Dir), nat>, i: nat, ready: set<Dir>)
    requires TableOk(regs, view) && FiltersOk(regs, filters) && i < |regs| && regs[i].inUse
    ensures regs[i].fd in view
    ensures TableOk(regs[i := regs[i].(ready := ready)], view[regs[i].fd := view[regs[i].fd].(ready := ready)])
    ensures FiltersOk(regs[i := regs[i].(ready := ready)], filters)
  {
    var r := regs[i];
    assert SlotOk(r, view);
    OnlyHere(regs, view, i, r.fd);
    TableSet(regs, view, i, r.fd, Entry(r.want, ready, r.sig));
    var regs' := regs[i := r.(ready := ready)];
    forall f | f in filters ensures Holds(regs', filters[f], f.0) && f.1 in regs'[filters[f]].want {
      assert Holds(regs, filters[f], f.0);
    }
  }
}
