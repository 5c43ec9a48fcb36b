/** Runs of the workers: with room for a block any worker makes any number of good rounds, and a
    round of one fits into the middle of a round of another. */
module KernRounds {
  import opened FreeList
  import opened MemHeaders
  import opened KernHeap
  import opened KernRoom
  import H = Heap

  /** Some chunk holds a block. */
  ghost predicate Fits(cs: seq<Chunk>)
  {
    exists i | 0 <= i < |cs| :: cs[i].bytes >= SIZE
  }

  /** The running worker is in its r-th round or between rounds, has missed m of them, and is not
      missing this one. */
  ghost predicate OnTheWay(s: Sys, u: nat, r: int, m: int)
  {
    && Running(s) && s.current == u && s.workers[u].ran == r && s.workers[u].missed == m
    && s.workers[u].pc != AllocPermit(NULL) && !s.workers[u].pc.Idle?
    && (s.workers[u].pc.AllocForbid? || s.workers[u].pc.AllocEnter? || s.workers[u].pc.AllocWalk? ==>
          Fits(s.heap.chunks))
  }

  /** The statements of the worker's own that a round has left, over-estimated walk by walk. */
  function Rank(pc: Pc): nat
  {
    match pc
    case Start => 0
    case AllocForbid => 15 case AllocEnter => 14 case AllocWalk(_, _, _) => 13 case AllocStores(_, _) => 12
    case AllocPermit(_) => 11
    case Fill(_, _) => 10 case Work(_) => 9 case Check(_, _, _) => 8 case Judge(_, _) => 7
    case FreeForbid(_) => 6 case FreeEnter(_) => 5 case FreeWalk(_, _, _, _) => 4 case FreeStores(_) => 3
    case FreePermit => 2
    case Idle => 1
  }

  function Within(pc: Pc, chunks: nat): nat
  {
    match pc
    case AllocWalk(_, _, i) => if i <= chunks then chunks - i else 0
    case FreeWalk(_, _, _, i) => if i <= chunks then chunks - i else 0
    case AllocStores(todo, _) => |todo|
    case FreeStores(todo) => |todo|
    case Fill(_, i) => if i <= SIZE then SIZE - i else 0
    case Check(_, i, _) => if i <= SIZE then SIZE - i else 0
    case _ => 0
  }

  /** What a statement of the worker leaves alone: the other workers, and what was handed out. */
  predicate OnlyMine(s: Sys, t: Sys, u: nat)
  {
    && u < |s.workers| == |t.workers| && t.current == s.current && t.fixed == s.fixed
    && t.heap.lo == s.heap.lo && t.heap.hi == s.heap.hi
    && t.workers == s.workers[u := t.workers[u]]
  }

  lemma StepShape(s: Sys)
    requires s.current < |s.workers|
    ensures OnlyMine(s, Step(s), s.current)
    ensures var w, w', h' := s.workers[s.current], Step(s).workers[s.current], Step(s).heap;
            && (!w.pc.Start? ==> w'.ran == w.ran) && (!w.pc.Idle? ==> w'.missed == w.missed)
            && (w.pc.AllocForbid? || w.pc.AllocEnter? ==> h' == s.heap)
            && (w'.pc.AllocWalk? ==> h' == s.heap)
  {
    hide Fit, Overlaps, GrantReads, ReleaseReads, Apply, Carve, FreedBlock, H.Step;
    StepKeepsRegion(s, Statement);
  }

  /** A statement brings the end of the round nearer. */
  lemma StepNears(s: Sys)
    requires s.current < |s.workers| && !s.workers[s.current].pc.Start?
    requires WalkOk(s.workers[s.current].pc, s.heap.chunks, s.first)
    requires s.workers[s.current].pc.AllocWalk? || s.workers[s.current].pc.FreeWalk? ==>
               (s.workers[s.current].pc.p2 != NULL <==> s.workers[s.current].pc.i < |s.heap.chunks|)
    ensures var pc, pc', n, n' := s.workers[s.current].pc, Step(s).workers[s.current].pc,
                                  |s.heap.chunks|, |Step(s).heap.chunks|;
            Rank(pc') < Rank(pc) || (Rank(pc') == Rank(pc) && Within(pc', n') < Within(pc, n))
  {
    hide Fit, Overlaps, GrantReads, ReleaseReads, Apply, Carve, FreedBlock, H.Step, WalkOk;
    StepShape(s);
  }

  /** The walks end at the end of the list, and Allocate's before it when a chunk fits. */
  lemma WalkAhead(s: Sys)
    requires Running(s)
    ensures var pc, cs := s.workers[s.current].pc, s.heap.chunks;
            && WalkOk(pc, cs, s.first)
            && (pc.AllocWalk? || pc.FreeWalk? ==> (pc.p2 != NULL <==> pc.i < |cs|))
            && (pc.AllocWalk? && Fits(cs) ==> pc.p2 != NULL)
            && (pc.AllocEnter? && Fits(cs) ==> s.ram.free >= SIZE)
            && (pc.AllocStores? ==> pc.p != NULL)
  {
    hide StoresOk, BlocksApart, Lock, Accounted, HeapOk, Linked;
    var pc, cs := s.workers[s.current].pc, s.heap.chunks;
    assert WorkerOk(s.workers[s.current], s.heap.live, s.ram.mem);
    ChunksReal(s.heap, s.first);
    DoneNothing(s.ram);
    if pc.AllocEnter? && Fits(cs) {
      var i :| 0 <= i < |cs| && cs[i].bytes >= SIZE;
      SumAt(cs, i);
    }
  }

  /** What a statement leads to when a chunk fits. */
  lemma StepHappy(s: Sys)
    requires s.current < |s.workers|
    requires var pc := s.workers[s.current].pc;
             && !pc.Start? && pc != AllocPermit(NULL) && !pc.Idle?
             && (pc.AllocWalk? ==> pc.p2 != NULL) && (pc.AllocEnter? ==> s.ram.free >= SIZE)
             && (pc.AllocStores? ==> pc.p != NULL)
    ensures var pc, pc' := s.workers[s.current].pc, Step(s).workers[s.current].pc;
            && pc' != AllocPermit(NULL) && !pc'.Idle?
            && (pc'.AllocForbid? || pc'.AllocEnter? || pc'.AllocWalk? ==>
                  pc.AllocForbid? || pc.AllocEnter? || pc.AllocWalk?)
  {
    hide Fit, Overlaps, GrantReads, ReleaseReads, Apply, Carve, FreedBlock, H.Step;
  }

  lemma StepOn(s: Sys, u: nat, r: int, m: int)
    requires OnTheWay(s, u, r, m) && !s.workers[u].pc.Start?
    ensures OnTheWay(Step(s), u, r, m) && OnlyMine(s, Step(s), u)
    ensures var pc, pc', n, n' := s.workers[u].pc, Step(s).workers[u].pc, |s.heap.chunks|, |Step(s).heap.chunks|;
            Rank(pc') < Rank(pc) || (Rank(pc') == Rank(pc) && Within(pc', n') < Within(pc, n))
  {
    hide Inv, Step, Fits;
    WalkAhead(s);
    StepShape(s);
    StepHappy(s);
    StepNears(s);
    StatementKeeps(s);
  }

  /** n statements of the running worker. */
  function Statements(n: nat): seq<Action>
  {
    if n == 0 then [] else [Statement] + Statements(n - 1)
  }

  lemma {:induction false} RunJoin(s: Sys, a: seq<Action>, b: seq<Action>)
    ensures Run(s, a + b) == Run(Run(s, a), b)
    decreases |a|
  {
    hide Next;
    if a == [] {
      assert a + b == b;
    } else {
      assert (a + b)[1..] == a[1..] + b;
      RunJoin(Next(s, a[0]), a[1..], b);
    }
  }

  lemma One(s: Sys, a: Action)
    ensures Run(s, [a]) == Next(s, a)
  {
    hide Next;
    assert [a][1..] == [];
  }

  lemma RunOne(s: Sys, n: nat)
    requires s.current < |s.workers|
    ensures Run(s, Statements(n + 1)) == Run(Step(s), Statements(n)) && Run(s, Statements(0)) == s
  {
    hide Step;
    assert Statements(n + 1)[1..] == Statements(n);
  }

  /** The worker's own statements end the round. */
  lemma {:induction false} Finishes(s: Sys, u: nat, r: int, m: int) returns (n: nat)
    requires OnTheWay(s, u, r, m)
    ensures var t := Run(s, Statements(n)); OnTheWay(t, u, r, m) && t.workers[u].pc.Start? && OnlyMine(s, t, u)
    decreases Rank(s.workers[u].pc), Within(s.workers[u].pc, |s.heap.chunks|)
  {
    hide Inv, Step, Fits, Run;
    RunOne(s, 0);
    n := 0;
    if !s.workers[u].pc.Start? {
      StepOn(s, u, r, m);
      var k := Finishes(Step(s), u, r, m);
      RunOne(s, k);
      n := k + 1;
    }
  }

  /** The worker's own statements lead to the k-th byte of its stamping. */
  lemma {:induction false} Stamps(s: Sys, u: nat, r: int, m: int, k: nat) returns (n: nat)
    requires OnTheWay(s, u, r, m) && k <= SIZE
    requires var pc := s.workers[u].pc; Rank(pc) > 10 || (pc.Fill? && pc.i <= k)
    ensures var t := Run(s, Statements(n));
            OnTheWay(t, u, r, m) && t.workers[u].pc.Fill? && t.workers[u].pc.i == k && OnlyMine(s, t, u)
    decreases Rank(s.workers[u].pc), Within(s.workers[u].pc, |s.heap.chunks|)
  {
    hide Inv, Step, Fits, Run;
    RunOne(s, 0);
    n := 0;
    var pc := s.workers[u].pc;
    if !(pc.Fill? && pc.i == k) {
      StepOn(s, u, r, m);
      StepTowardsStamp(s);
      var j := Stamps(Step(s), u, r, m, k);
      RunOne(s, j);
      n := j + 1;
    }
  }

  lemma StepTowardsStamp(s: Sys)
    requires s.current < |s.workers|
    requires var pc := s.workers[s.current].pc; pc != AllocPermit(NULL) && (Rank(pc) > 10 || (pc.Fill? && pc.i < SIZE))
    requires Step(s).workers[s.current].pc != AllocPermit(NULL)
    ensures var pc, pc' := s.workers[s.current].pc, Step(s).workers[s.current].pc;
            if pc.Fill? then pc'.Fill? && pc'.i == pc.i + 1 else Rank(pc') > 10 || (pc'.Fill? && pc'.i == 0)
  {
    hide Fit, Overlaps, GrantReads, ReleaseReads, Apply, Carve, FreedBlock, H.Step;
  }

  // ---- rounds --------------------------------------------------------------------------

  /** A worker that held nothing and holds nothing again has left the heap as it was. */
  lemma HeapBack(s: Sys, t: Sys, u: nat)
    requires Inv(s) && Inv(t) && OnlyMine(s, t, u)
    requires s.workers[u].pc.Block() == NULL && t.workers[u].pc.Block() == NULL
    ensures t.heap == s.heap
  {
    hide RamOk, StoresOk, BlocksApart, Lock, Walking, H.Inv;
    LiveKept(s, t, u);
    LiveKept(t, s, u);
    HeapsOf(s, t);
    H.ListFromLive(t.heap, s.heap);
  }

  lemma LiveKept(s: Sys, t: Sys, u: nat)
    requires Inv(s) && Inv(t) && OnlyMine(s, t, u) && s.workers[u].pc.Block() == NULL
    ensures s.heap.live <= t.heap.live
  {
    hide RamOk, StoresOk, BlocksApart, Lock, Walking, HeapOk;
    forall b | b in s.heap.live ensures b in t.heap.live {
      if b !in s.fixed {
        var v: nat :| HeldBy(s.workers, b, v);
        assert v != u && t.workers[v] == s.workers[v];
        assert WorkerOk(t.workers[v], t.heap.live, t.ram.mem);
      }
    }
  }

  lemma HeapsOf(s: Sys, t: Sys)
    requires Inv(s) && Inv(t)
    ensures H.Inv(s.heap) && H.Inv(t.heap)
  {
    hide RamOk, StoresOk, BlocksApart, Lock, Walking, Accounted;
  }

  /** Between two rounds. */
  ghost predicate AtStart(s: Sys, u: nat)
  {
    Inv(s) && u < |s.workers| && s.current == u && s.workers[u].pc.Start?
  }

  lemma Balanced(s: Sys, u: nat)
    requires AtStart(s, u)
    ensures s.workers[u].ran == s.workers[u].good + s.workers[u].missed && s.forbid == 0
  {
    hide HeapOk, RamOk, StoresOk, BlocksApart, Accounted, Walking;
    assert WorkerOk(s.workers[u], s.heap.live, s.ram.mem);
  }

  /** One round, alone: good, and the heap is as before. */
  lemma Round(s: Sys, u: nat) returns (actions: seq<Action>)
    requires AtStart(s, u) && Fits(s.heap.chunks)
    ensures var t := Run(s, actions);
            && AtStart(t, u) && OnlyMine(s, t, u) && t.heap == s.heap
            && t.workers[u].good == s.workers[u].good + 1 && t.workers[u].missed == s.workers[u].missed
  {
    hide Inv, Step, Fits, Run;
    var n := Begins(s, u);
    Balanced(s, u);
    actions := Statements(n);
    var t := Run(s, actions);
    Balanced(t, u);
    HeapBack(s, t, u);
  }

  lemma Begins(s: Sys, u: nat) returns (n: nat)
    requires AtStart(s, u) && Fits(s.heap.chunks)
    ensures var t := Run(s, Statements(n));
            OnTheWay(t, u, s.workers[u].ran + 1, s.workers[u].missed) && t.workers[u].pc.Start? && OnlyMine(s, t, u)
  {
    hide Inv, Fits, Run;
    StatementKeeps(s);
    RunOne(s, 0);
    var k := Finishes(Step(s), u, s.workers[u].ran + 1, s.workers[u].missed);
    RunOne(s, k);
    n := k + 1;
  }

  /** To the k-th byte of the stamping of the next round. */
  lemma BeginsToStamp(s: Sys, u: nat, k: nat) returns (n: nat)
    requires AtStart(s, u) && Fits(s.heap.chunks) && k <= SIZE
    ensures var t := Run(s, Statements(n));
            && OnTheWay(t, u, s.workers[u].ran + 1, s.workers[u].missed) && OnlyMine(s, t, u)
            && t.workers[u].pc.Fill? && t.workers[u].pc.i == k
  {
    hide Inv, Fits, Run;
    StatementKeeps(s);
    var j := Stamps(Step(s), u, s.workers[u].ran + 1, s.workers[u].missed, k);
    RunOne(s, j);
    n := j + 1;
  }

  lemma {:induction false} Rounds(s: Sys, u: nat, n: nat) returns (actions: seq<Action>)
    requires AtStart(s, u) && Fits(s.heap.chunks)
    ensures var t := Run(s, actions);
            AtStart(t, u) && t.workers[u].good == s.workers[u].good + n && t.workers[u].missed == s.workers[u].missed
    decreases n
  {
    hide AtStart, Fits, Run, Inv;
    RunNothing(s);
    actions := [];
    if n > 0 {
      var first := Round(s, u);
      var rest := Rounds(Run(s, first), u, n - 1);
      RunJoin(s, first, rest);
      actions := first + rest;
    }
  }

  lemma RunNothing(s: Sys)
    ensures Run(s, []) == s
  {
  }

  /** From every start with a chunk that holds a block: any worker makes any number of good rounds
      in some run, and misses none. */
  lemma EveryCountIsReached(s: Sys, u: nat, n: nat)
    requires Spawned(s) && u < |s.workers| && Fits(s.heap.chunks)
    ensures exists actions ::
              var t := Run(s, actions);
              |t.workers| == |s.workers| && t.workers[u].good == n && t.workers[u].missed == 0
  {
    hide Inv, Fits, Run, Step;
    SpawnedInv(s);
    TimerKeeps(s, u);
    One(s, Timer(u));
    var rounds := Rounds(s.(current := u), u, n);
    RunJoin(s, [Timer(u)], rounds);
    RunKeepsCount(s, [Timer(u)] + rounds);
    var actions := [Timer(u)] + rounds;
    assert Run(s, actions).workers[u].good == n;
  }

  lemma {:induction false} RunKeepsCount(s: Sys, actions: seq<Action>)
    ensures |Run(s, actions).workers| == |s.workers|
    decreases |actions|
  {
    hide Next;
    if actions != [] {
      NextKeepsCount(s, actions[0]);
      RunKeepsCount(Next(s, actions[0]), actions[1..]);
    }
  }

  lemma NextKeepsCount(s: Sys, a: Action)
    ensures |Next(s, a).workers| == |s.workers|
  {
    hide Step;
    if a.Statement? && s.current < |s.workers| { StepShape(s); }
  }

  lemma FitsSomewhere(s: Sys, c: Chunk)
    requires Running(s) && s.workers[s.current].pc.Block() == NULL && RoomOk(s, c) && c.End() <= s.heap.hi
    ensures Fits(s.heap.chunks)
  {
    hide Inv, Fenced, AllInPlace;
    AlwaysFits(s, c);
  }

  /** A tick hands the processor over while the running worker is not under Forbid. */
  lemma Switches(s: Sys, v: nat)
    requires Running(s) && !s.workers[s.current].pc.Critical() && v < |s.workers|
    ensures Run(s, [Timer(v)]) == s.(current := v) && Inv(s.(current := v))
  {
    hide HeapOk, RamOk, StoresOk, BlocksApart, Accounted, Walking, Run;
    One(s, Timer(v));
    TimerKeeps(s, v);
  }

  /** Switched away from, worker u waits while v makes a round. */
  lemma Between(t: Sys, c: Chunk, u: nat, v: nat, k: nat) returns (during: seq<Action>)
    requires Running(t) && t.current == u && Stamping(t, u, k) && v < |t.workers| && v != u
    requires t.workers[v].pc.Start? && t.workers[v].good == 0 && t.workers[v].missed == 0
    requires RoomOk(t, c) && c.End() <= t.heap.hi && t.workers[u].missed == 0
    ensures var m := Run(t, during);
            AtStart(m, v) && Made(m, v) && Stamping(m, u, k) && u < |m.workers| && m.workers[u].missed == 0
  {
    hide Inv, Fits, Run, Fenced, AllInPlace;
    Switches(t, v);
    var s := t.(current := v);
    FitsSomewhere(s, c);
    var round := Round(s, v);
    RunJoin(t, [Timer(v)], round);
    during := [Timer(v)] + round;
    Balanced(Run(t, during), v);
  }

  /** And then finishes its own. */
  lemma Resumes(m: Sys, u: nat, v: nat, k: nat) returns (after: seq<Action>)
    requires AtStart(m, v) && u < |m.workers| && u != v && Stamping(m, u, k) && m.workers[u].missed == 0
    ensures Made(Run(m, after), u)
  {
    hide Inv, Fits, Run;
    Switches(m, u);
    var n := Finishes(m.(current := u), u, 1, 0);
    RunJoin(m, [Timer(u)], Statements(n));
    after := [Timer(u)] + Statements(n);
    Balanced(Run(m, after), u);
  }

  /** From every start with room for all: in some run worker u is switched away from in the middle
      of stamping its block, at any byte; worker v makes a whole good round meanwhile; and u, when
      it runs again, finishes a good round too. */
  lemma RoundWithinARound(s: Sys, c: Chunk, u: nat, v: nat, k: nat)
    requires Spawned(s) && c in s.heap.chunks && c.bytes >= |s.workers| * SIZE
    requires u < |s.workers| && v < |s.workers| && u != v && k <= SIZE
    ensures exists before, during, after ::
              && Stamping(Run(s, before), u, k)
              && Made(Run(Run(s, before), during), v) && Stamping(Run(Run(s, before), during), u, k)
              && Made(Run(Run(Run(s, before), during), after), u)
  {
    hide Inv, Fits, Run, Step, RoomOk, Stamping, Made, AtStart;
    SpawnedRoom(s, c);
    var before := UpTo(s, c, u, v, k);
    var t := Run(s, before);
    RunKeepsRegion(s, before);
    RunKeepsRoom(s, before, c);
    var during := Between(t, c, u, v, k);
    var m := Run(t, during);
    var after := Resumes(m, u, v, k);
    assert Made(Run(m, after), u);
  }

  /** The first round of u, up to the k-th byte of its stamping. */
  lemma UpTo(s: Sys, c: Chunk, u: nat, v: nat, k: nat) returns (before: seq<Action>)
    requires Spawned(s) && RoomOk(s, c) && c.End() <= s.heap.hi
    requires u < |s.workers| && v < |s.workers| && u != v && k <= SIZE
    ensures var t := Run(s, before);
            && Inv(s) && Running(t) && t.current == u && Stamping(t, u, k) && t.workers[u].missed == 0
            && |t.workers| == |s.workers| && t.workers[v] == s.workers[v] == Worker(Start, s.workers[v].mark, 0, 0, 0)
  {
    hide Inv, Fits, Run, Step, Fenced, AllInPlace;
    SpawnedInv(s);
    TimerKeeps(s, u);
    One(s, Timer(u));
    var first := s.(current := u);
    FitsSomewhere(first, c);
    var n := BeginsToStamp(first, u, k);
    RunJoin(s, [Timer(u)], Statements(n));
    before := [Timer(u)] + Statements(n);
    Counted(Run(s, before), u);
  }

  lemma Counted(s: Sys, u: nat)
    requires Inv(s) && u < |s.workers| && s.workers[u].pc.Fill?
    ensures s.workers[u].ran == s.workers[u].good + s.workers[u].missed + 1
  {
    hide HeapOk, RamOk, StoresOk, BlocksApart, Accounted, Walking, Lock;
    assert WorkerOk(s.workers[u], s.heap.live, s.ram.mem);
  }

  /** The worker is in its first round, with k bytes stamped. */
  predicate Stamping(s: Sys, u: nat, k: nat)
  {
    && u < |s.workers| && s.workers[u].pc.Fill? && s.workers[u].pc.i == k
    && s.workers[u].ran == 1 && s.workers[u].good == 0
  }

  /** The worker has made its first round, and it was good. */
  predicate Made(s: Sys, u: nat)
  {
    u < |s.workers| && s.workers[u].pc.Start? && s.workers[u].ran == 1 && s.workers[u].good == 1
  }

  // ---- what a check says ---------------------------------------------------------------

  /** The bytes of the block from the i-th on hold the worker's mark. */
  predicate Intact(w: Worker, mem: Memory, p: nat, i: nat)
  {
    forall a: int | p + i <= a < p + SIZE :: Peek(mem, a) == w.mark
  }

  /** On any memory, stamped or overwritten: the check looks at every byte, and the round counts as
      good exactly when all of them hold the mark. */
  lemma {:induction false} ChecksEveryByte(s: Sys, p: nat, i: nat, ok: bool)
    requires s.current < |s.workers| && i <= SIZE && s.workers[s.current].pc == Check(p, i, ok)
    ensures var w, t := s.workers[s.current], Run(s, Statements(SIZE - i + 2));
            && |t.workers| == |s.workers| && t.ram == s.ram && t.heap == s.heap
            && t.workers[s.current] == w.(pc := FreeForbid(p), good := t.workers[s.current].good)
            && t.workers[s.current].good == w.good + (if ok && Intact(w, s.ram.mem, p, i) then 1 else 0)
    decreases SIZE - i
  {
    hide Run;
    var w := s.workers[s.current];
    RunOne(s, SIZE - i + 1);
    if i < SIZE {
      ChecksEveryByte(Step(s), p, i + 1, ok && Peek(s.ram.mem, p + i) == w.mark);
      assert Intact(w, s.ram.mem, p, i) <==> Peek(s.ram.mem, p + i) == w.mark && Intact(w, s.ram.mem, p, i + 1);
    } else {
      RunOne(Step(s), 0);
      RunOne(Step(Step(s)), 0);
    }
  }
}
