/** The allocator under preemption: workers that allocate, stamp, check and free a block each,
    with a timer tick possible between any two statements, the allocator's own stores included. */
module KernHeap {
  import opened Bits
  import opened FreeList
  import opened MemHeaders
  import H = Heap
  import opened Types

  const SIZE: nat := 256        // what every worker asks for

  /** One statement of the allocator that changes memory or mh_Free. */
  datatype Store = Word(addr: int, value: int) | Zero(start: nat, bytes: nat) | Count(delta: int)

  datatype Ram = Ram(mem: Memory, free: int)

  datatype Pc =
    | Start
    | AllocForbid | AllocEnter | AllocWalk(p1: int, p2: int, i: nat) | AllocStores(todo: seq<Store>, p: nat)
    | AllocPermit(p: nat)
    | Fill(p: nat, i: nat) | Work(p: nat) | Check(p: nat, i: nat, ok: bool) | Judge(p: nat, ok: bool)
    | FreeForbid(p: nat) | FreeEnter(p: nat) | FreeWalk(p: nat, p1: int, p2: int, i: nat)
    | FreeStores(todo: seq<Store>) | FreePermit
    | Idle
  {
    predicate Critical()
    {
      || AllocEnter? || AllocWalk? || AllocStores? || AllocPermit?
      || FreeEnter? || FreeWalk? || FreeStores? || FreePermit?
    }

    /** The block the worker holds, 0 for none. */
    function Block(): nat
    {
      match this
      case AllocStores(_, p) => p
      case AllocPermit(p) => p
      case Fill(p, _) => p
      case Work(p) => p
      case Check(p, _, _) => p
      case Judge(p, _) => p
      case FreeForbid(p) => p
      case FreeEnter(p) => p
      case FreeWalk(p, _, _, _) => p
      case _ => NULL
    }

    function Todo(): seq<Store>
    {
      if AllocStores? || FreeStores? then todo else []
    }
  }

  datatype Worker = Worker(pc: Pc, mark: int, ran: int, good: int, missed: int)

  /** heap is the allocator's specification state; ram is what memory and mh_Free hold. */
  datatype Sys = Sys(heap: H.Heap, first: nat, ram: Ram, fixed: set<Chunk>, workers: seq<Worker>,
                     current: nat, forbid: nat)

  function Apply(r: Ram, st: Store): Ram
  {
    match st
    case Word(a, v) => r.(mem := r.mem[a := v])
    case Zero(a, n) => r.(mem := Zeroed(r.mem, a, n))
    case Count(d) => r.(free := r.free + d)
  }

  function Done(r: Ram, todo: seq<Store>): Ram
    decreases |todo|
  {
    if todo == [] then r else Done(Apply(r, todo[0]), todo[1..])
  }

  /** The stores of Allocate (MEMF_CLEAR) on chunk k, in program order. */
  function GrantStores(first: nat, cs: seq<Chunk>, k: nat, n: nat): seq<Store>
    requires k < |cs| && n <= cs[k].bytes
  {
    var rem := cs[k].addr + n;
    (if cs[k].bytes == n then [Word(Before(first, cs, k), At(cs, k + 1))]
     else [Word(Before(first, cs, k), rem), Word(rem, At(cs, k + 1)), Word(rem + WORD, cs[k].bytes - n)])
    + [Count(-(n as int)), Zero(cs[k].addr, n)]
  }

  /** The stores of Deallocate on block b, in program order. */
  function ReleaseStores(first: nat, cs: seq<Chunk>, b: Chunk): seq<Store>
    requires !Overlaps(cs, b)
  {
    var m := Merged(cs, b);
    (if MergeLeft(cs, b) < Position(cs, b.addr) then [] else [Word(Before(first, cs, Position(cs, b.addr)), b.addr)])
    + [Word(m.addr, At(cs, MergeRight(cs, b))), Word(m.addr + WORD, m.bytes), Count(b.bytes)]
  }

  // ---- steps ---------------------------------------------------------------------------

  function Go(s: Sys, w: Worker): Sys
    requires s.current < |s.workers|
  {
    s.(workers := s.workers[s.current := w])
  }

  function Nat(x: int): nat { if x < 0 then 0 else x }

  /** The stores of Allocate on the chunk at p2, behind p1, from what memory holds there. */
  function GrantReads(mem: Memory, p1: int, p2: int): seq<Store>
  {
    (if Peek(mem, p2 + WORD) == SIZE then [Word(p1, Peek(mem, p2))]
     else [Word(p1, p2 + SIZE), Word(p2 + SIZE, Peek(mem, p2)), Word(p2 + SIZE + WORD, Peek(mem, p2 + WORD) - SIZE)])
    + [Count(-(SIZE as int)), Zero(Nat(p2), SIZE)]
  }

  /** The stores of Deallocate on block b between p1 and p2, from what memory holds there; none
      when the neighbours overlap it. Into an empty list the order is another. */
  function ReleaseReads(mem: Memory, first: nat, p1: int, p2: int, i: nat, b: Chunk): Option<seq<Store>>
  {
    if p2 == NULL && i == 0 then Some(EmptyStores(first, b))
    else if p2 != NULL && b.End() > p2 then None
    else if p1 != first && p1 + Peek(mem, p1 + WORD) > b.addr then None
    else
      var left := p1 != first && p1 + Peek(mem, p1 + WORD) == b.addr;
      var p3 := if left then p1 else b.addr;
      var right := p2 != NULL && b.End() == p2;
      var p4 := if right then b.End() + Peek(mem, p2 + WORD) else b.End();
      Some((if left then [] else [Word(p1, b.addr)])
           + [Word(p3, if right then Peek(mem, p2) else p2), Word(p3 + WORD, p4 - p3), Count(b.bytes)])
  }

  function EmptyStores(first: nat, b: Chunk): seq<Store>
  {
    [Word(b.addr + WORD, b.bytes), Word(b.addr, NULL), Word(first, b.addr), Count(b.bytes)]
  }

  /** The walk of Allocate: on to the next chunk, or to the stores on the one that fits. */
  function AllocWalked(s: Sys, w: Worker, p1: int, p2: int, i: nat): Sys
    requires s.current < |s.workers|
  {
    if p2 == NULL then Go(s, w.(pc := AllocPermit(NULL)))
    else if Peek(s.ram.mem, p2 + WORD) < SIZE then Go(s, w.(pc := AllocWalk(p2, Peek(s.ram.mem, p2), i + 1)))
    else
      Go(s.(heap := H.Step(s.heap, H.AllocCall(SIZE, false))),
        w.(pc := AllocStores(GrantReads(s.ram.mem, p1, p2), Nat(p2))))
  }

  /** The walk of Deallocate: on to the next chunk below the block, or to the stores around it. */
  function FreeWalked(s: Sys, w: Worker, p: nat, p1: int, p2: int, i: nat): Sys
    requires s.current < |s.workers|
  {
    var b := FreedBlock(p, SIZE);
    if p2 != NULL && p2 < b.addr then Go(s, w.(pc := FreeWalk(p, p2, Peek(s.ram.mem, p2), i + 1)))
    else
      match ReleaseReads(s.ram.mem, s.first, p1, p2, i, b)
      case None => Go(s, w.(pc := FreePermit))
      case Some(todo) => Go(s.(heap := H.Step(s.heap, H.FreeCall(b))), w.(pc := FreeStores(todo)))
  }

  /** One statement of the running worker. */
  function Step(s: Sys): Sys
    requires s.current < |s.workers|
  {
    var w := s.workers[s.current];
    match w.pc
    case Start => Go(s, w.(pc := AllocForbid, ran := w.ran + 1))
    case AllocForbid => Go(s.(forbid := s.forbid + 1), w.(pc := AllocEnter))
    case AllocEnter =>
      Go(s, w.(pc := if s.ram.free < SIZE then AllocPermit(NULL) else AllocWalk(s.first, Peek(s.ram.mem, s.first), 0)))
    case AllocWalk(p1, p2, i) => AllocWalked(s, w, p1, p2, i)
    case AllocStores(todo, p) =>
      if todo == [] then Go(s, w.(pc := AllocPermit(p)))
      else Go(s.(ram := Apply(s.ram, todo[0])), w.(pc := AllocStores(todo[1..], p)))
    case AllocPermit(p) =>
      Go(s.(forbid := if s.forbid > 0 then s.forbid - 1 else 0), w.(pc := if p == NULL then Idle else Fill(p, 0)))
    case Fill(p, i) =>
      if i < SIZE then Go(s.(ram := Apply(s.ram, Word(p + i, w.mark))), w.(pc := Fill(p, i + 1)))
      else Go(s, w.(pc := Work(p)))
    case Work(p) => Go(s, w.(pc := Check(p, 0, true)))
    case Check(p, i, ok) =>
      Go(s, w.(pc := if i < SIZE then Check(p, i + 1, ok && Peek(s.ram.mem, p + i) == w.mark) else Judge(p, ok)))
    case Judge(p, ok) => Go(s, w.(pc := FreeForbid(p), good := if ok then w.good + 1 else w.good))
    case FreeForbid(p) => Go(s.(forbid := s.forbid + 1), w.(pc := FreeEnter(p)))
    case FreeEnter(p) => Go(s, w.(pc := FreeWalk(p, s.first, Peek(s.ram.mem, s.first), 0)))
    case FreeWalk(p, p1, p2, i) => FreeWalked(s, w, p, p1, p2, i)
    case FreeStores(todo) =>
      if todo == [] then Go(s, w.(pc := FreePermit))
      else Go(s.(ram := Apply(s.ram, todo[0])), w.(pc := FreeStores(todo[1..])))
    case FreePermit => Go(s.(forbid := if s.forbid > 0 then s.forbid - 1 else 0), w.(pc := Start))
    case Idle => Go(s, w.(pc := Start, missed := w.missed + 1))
  }

  /** A tick may hand the processor to any worker, unless dispatch is forbidden. */
  datatype Action = Statement | Timer(to: nat)

  function Next(s: Sys, a: Action): Sys
  {
    match a
    case Statement => if s.current < |s.workers| then Step(s) else s
    case Timer(to) => if s.forbid == 0 && to < |s.workers| then s.(current := to) else s
  }

  // ---- the invariant -------------------------------------------------------------------

  ghost predicate HeapOk(h: H.Heap, first: nat)
  {
    H.Inv(h) && H.Region(h.lo, h.hi) && 0 < h.lo && h.hi < WORD64 && Outside(first, h.lo, h.hi)
  }

  function Todo(s: Sys): seq<Store>
  {
    if s.current < |s.workers| then s.workers[s.current].pc.Todo() else []
  }

  function Own(s: Sys): nat
  {
    if s.current < |s.workers| then s.workers[s.current].pc.Block() else NULL
  }

  /** Once the running worker's stores are done, memory holds the free list and mh_Free its sum. */
  ghost predicate RamOk(h: H.Heap, first: nat, ram: Ram, todo: seq<Store>)
  {
    var r := Done(ram, todo);
    Linked(r.mem, first, h.chunks) && r.free == Sum(h.chunks)
  }

  predicate Touches(st: Store, a: int)
  {
    match st
    case Word(x, _) => a == x
    case Zero(x, n) => x <= a < x + n
    case Count(_) => false
  }

  /** A store that leaves every live block but the one at p alone. */
  ghost predicate Harmless(st: Store, live: set<Chunk>, p: nat)
  {
    forall b, a: int | b in live && b.Has(a) && Touches(st, a) :: b.addr == p
  }

  ghost predicate StoresOk(todo: seq<Store>, live: set<Chunk>, p: nat)
  {
    forall i | 0 <= i < |todo| :: Harmless(todo[i], live, p)
  }

  /** How many bytes of its block the worker has stamped and not yet given up. */
  function Stamped(pc: Pc): nat
  {
    match pc
    case Fill(_, i) => i
    case Work(_) | Check(_, _, _) | Judge(_, _) => SIZE
    case _ => 0
  }

  predicate InRound(pc: Pc)
  {
    !pc.Start? && !pc.FreeForbid? && !pc.FreeEnter? && !pc.FreeWalk? && !pc.FreeStores? && !pc.FreePermit?
  }

  /** A worker holds a live block of its own, stamped as far as it has got, every check so far
      passed, and its counts agree. */
  ghost predicate WorkerOk(w: Worker, live: set<Chunk>, mem: Memory)
  {
    && (w.pc.Block() != NULL ==> Chunk(w.pc.Block(), SIZE) in live)
    && (w.pc.Fill? || w.pc.Work? || w.pc.Check? || w.pc.Judge?
        || w.pc.FreeForbid? || w.pc.FreeEnter? || w.pc.FreeWalk? ==>
          w.pc.Block() != NULL)
    && (w.pc.Fill? ==> w.pc.i <= SIZE)
    && (forall a: int | w.pc.Block() <= a < w.pc.Block() + Stamped(w.pc) :: Peek(mem, a) == w.mark)
    && (w.pc.Check? || w.pc.Judge? ==> w.pc.ok)
    && (w.pc.AllocStores? ==> w.pc.p != NULL)
    && w.ran == w.good + w.missed + (if InRound(w.pc) then 1 else 0)
  }

  predicate Differ(p: Pc, q: Pc)
  {
    p.Block() != NULL ==> p.Block() != q.Block()
  }

  /** Blocks of different workers differ, and none is one of those handed out before the start. */
  ghost predicate BlocksApart(workers: seq<Worker>, fixed: set<Chunk>)
  {
    && (forall u, v | 0 <= u < v < |workers| :: Differ(workers[u].pc, workers[v].pc))
    && (forall u | 0 <= u < |workers| && workers[u].pc.Block() != NULL :: Chunk(workers[u].pc.Block(), SIZE) !in fixed)
  }

  /** Live are the blocks handed out before the start and those the workers hold. */
  ghost predicate Accounted(workers: seq<Worker>, fixed: set<Chunk>, live: set<Chunk>)
  {
    && fixed <= live
    && forall b | b in live && b !in fixed :: exists u :: HeldBy(workers, b, u)
  }

  ghost predicate HeldBy(workers: seq<Worker>, b: Chunk, u: nat)
  {
    u < |workers| && workers[u].pc.Block() != NULL && b == Chunk(workers[u].pc.Block(), SIZE)
  }

  ghost predicate Lock(s: Sys)
  {
    && s.forbid == (if s.current < |s.workers| && s.workers[s.current].pc.Critical() then 1 else 0)
    && forall u | 0 <= u < |s.workers| && u != s.current :: !s.workers[u].pc.Critical()
  }

  /** Where a walk over the free list has got to, and what it has passed. */
  ghost predicate WalkOk(pc: Pc, cs: seq<Chunk>, first: nat)
  {
    match pc
    case AllocWalk(p1, p2, i) =>
      i <= |cs| && p1 == Before(first, cs, i) && p2 == At(cs, i) && forall j | 0 <= j < i :: cs[j].bytes < SIZE
    case FreeWalk(p, p1, p2, i) =>
      && i <= |cs| && p1 == Before(first, cs, i) && p2 == At(cs, i)
      && forall j | 0 <= j < i :: cs[j].addr < FreedBlock(p, SIZE).addr
    case _ => true
  }

  ghost predicate Walking(s: Sys)
  {
    s.current < |s.workers| ==> WalkOk(s.workers[s.current].pc, s.heap.chunks, s.first)
  }

  ghost predicate Inv(s: Sys)
  {
    && Walking(s)
    && HeapOk(s.heap, s.first) && RamOk(s.heap, s.first, s.ram, Todo(s)) && StoresOk(Todo(s), s.heap.live, Own(s))
    && Lock(s) && BlocksApart(s.workers, s.fixed) && Accounted(s.workers, s.fixed, s.heap.live)
    && forall u | 0 <= u < |s.workers| :: WorkerOk(s.workers[u], s.heap.live, s.ram.mem)
  }

  // ---- statements that leave the heap alone --------------------------------------------

  lemma ApartKept(workers: seq<Worker>, fixed: set<Chunk>, c: nat, w: Worker)
    requires BlocksApart(workers, fixed) && c < |workers|
    requires w.pc.Block() == workers[c].pc.Block() || w.pc.Block() == NULL
    ensures BlocksApart(workers[c := w], fixed)
  {
    var after := workers[c := w];
    forall u, v | 0 <= u < v < |after| ensures Differ(after[u].pc, after[v].pc) {
      assert Differ(workers[u].pc, workers[v].pc);
    }
  }

  lemma AccountedKept(workers: seq<Worker>, fixed: set<Chunk>, live: set<Chunk>, c: nat, w: Worker)
    requires Accounted(workers, fixed, live) && c < |workers| && w.pc.Block() == workers[c].pc.Block()
    ensures Accounted(workers[c := w], fixed, live)
  {
    var after := workers[c := w];
    forall b | b in live && b !in fixed ensures exists u :: HeldBy(after, b, u) {
      var u :| HeldBy(workers, b, u);
      assert HeldBy(after, b, u);
    }
  }

  ghost predicate Running(s: Sys)
  {
    Inv(s) && s.current < |s.workers|
  }

  lemma QuietKeeps(s: Sys, w: Worker, forbid: nat)
    requires Running(s) && Todo(s) == [] && w.pc.Todo() == []
    requires w.pc.Block() == s.workers[s.current].pc.Block() && WorkerOk(w, s.heap.live, s.ram.mem)
    requires forbid == (if w.pc.Critical() then 1 else 0) && WalkOk(w.pc, s.heap.chunks, s.first)
    ensures Inv(Go(s.(forbid := forbid), w))
  {
    hide WalkOk, HeapOk, RamOk, WorkerOk, BlocksApart, Accounted;
    ApartKept(s.workers, s.fixed, s.current, w);
    AccountedKept(s.workers, s.fixed, s.heap.live, s.current, w);
  }

  // ---- stores --------------------------------------------------------------------------

  lemma PeekApply(r: Ram, st: Store, a: int)
    requires !Touches(st, a)
    ensures Peek(Apply(r, st).mem, a) == Peek(r.mem, a)
  {
  }

  /** A store outside a worker's block does not disturb the worker. */
  lemma OthersKept(w: Worker, live: set<Chunk>, r: Ram, st: Store)
    requires WorkerOk(w, live, r.mem)
    requires forall a: int | Chunk(w.pc.Block(), SIZE).Has(a) && w.pc.Block() != NULL :: !Touches(st, a)
    ensures WorkerOk(w, live, Apply(r, st).mem)
  {
    if w.pc.Block() != NULL {
      forall a: int | w.pc.Block() <= a < w.pc.Block() + Stamped(w.pc) ensures Peek(Apply(r, st).mem, a) == w.mark {
        assert Chunk(w.pc.Block(), SIZE).Has(a);
        PeekApply(r, st, a);
      }
    }
  }

  /** The next of the allocator's stores. */
  lemma StoreKeeps(s: Sys, w: Worker)
    requires Running(s) && Todo(s) != []
    requires w == s.workers[s.current].(pc := w.pc)
    requires w.pc == (if s.workers[s.current].pc.AllocStores? then AllocStores(Todo(s)[1..], s.workers[s.current].pc.p)
                      else FreeStores(Todo(s)[1..]))
    ensures Inv(Go(s.(ram := Apply(s.ram, Todo(s)[0])), w))
  {
    hide HeapOk, Linked, BlocksApart, Accounted, Apply, Harmless;
    var st, live := Todo(s)[0], s.heap.live;
    ApartKept(s.workers, s.fixed, s.current, w);
    AccountedKept(s.workers, s.fixed, live, s.current, w);
    var s' := Go(s.(ram := Apply(s.ram, st)), w);
    assert Todo(s') == Todo(s)[1..] && Own(s') == Own(s);
    assert RamOk(s'.heap, s'.first, s'.ram, Todo(s'));
    forall i | 0 <= i < |Todo(s')| ensures Harmless(Todo(s')[i], live, Own(s)) {
      assert Harmless(Todo(s)[i + 1], live, Own(s));
    }
    assert Harmless(st, live, Own(s));
    forall u | 0 <= u < |s'.workers| ensures WorkerOk(s'.workers[u], live, s'.ram.mem) {
      if u != s.current { StoreSpares(s, u); }
    }
  }

  lemma StoreSpares(s: Sys, u: nat)
    requires Running(s) && Todo(s) != [] && u < |s.workers| && u != s.current
    ensures WorkerOk(s.workers[u], s.heap.live, Apply(s.ram, Todo(s)[0]).mem)
  {
    hide HeapOk, RamOk, Lock, Accounted, Apply;
    var st, p := Todo(s)[0], s.workers[u].pc.Block();
    assert Harmless(st, s.heap.live, Own(s));
    assert WorkerOk(s.workers[u], s.heap.live, s.ram.mem);
    assert Differ(s.workers[u].pc, s.workers[s.current].pc) by {
      if u < s.current { assert Differ(s.workers[u].pc, s.workers[s.current].pc); }
      else { assert Differ(s.workers[s.current].pc, s.workers[u].pc); }
    }
    if p != NULL {
      forall a: int | Chunk(p, SIZE).Has(a) ensures !Touches(st, a) {
        assert Chunk(p, SIZE) in s.heap.live;
      }
    }
    OthersKept(s.workers[u], s.heap.live, s.ram, st);
  }

  /** Cells outside the header field and the free bytes can change without unlinking the list. */
  lemma LinkedAway(mem: Memory, first: nat, cs: seq<Chunk>, lo: nat, hi: nat, a: nat, v: int)
    requires Canonical(cs, lo, hi) && Linked(mem, first, cs) && a != first && !Covers(cs, a)
    ensures Linked(mem[a := v], first, cs)
  {
    var m := mem[a := v];
    forall i | 0 <= i <= |cs| ensures Link(m, first, cs, i) {
      LinkAt(mem, first, cs, i);
      if i > 0 { NotInChunk(cs, lo, hi, i - 1, a); }
    }
    forall i | 0 <= i < |cs| ensures Size(m, cs, i) {
      LinkAt(mem, first, cs, i + 1);
      NotInChunk(cs, lo, hi, i, a);
    }
  }

  lemma NotInChunk(cs: seq<Chunk>, lo: nat, hi: nat, i: nat, a: nat)
    requires Canonical(cs, lo, hi) && i < |cs| && !Covers(cs, a)
    ensures a != cs[i].addr && a != cs[i].addr + WORD
  {
    Roomy(cs, i, 0, lo, hi);
    assert !cs[i].Has(a);
  }

  /** A live block's bytes are neither free nor the header field. */
  lemma LiveIsApart(h: H.Heap, first: nat, b: Chunk, a: nat)
    requires HeapOk(h, first) && b in h.live && b.Has(a)
    ensures a != first && !Covers(h.chunks, a)
  {
    assert H.Held(h.live, a);
  }

  /** A worker stamping its own block. */
  lemma FillKeeps(s: Sys, w: Worker)
    requires Running(s)
    requires var v := s.workers[s.current]; v.pc.Fill? && v.pc.i < SIZE && w == v.(pc := Fill(v.pc.p, v.pc.i + 1))
    ensures Inv(Go(s.(ram := Apply(s.ram, Word(s.workers[s.current].pc.p + s.workers[s.current].pc.i, w.mark))), w))
  {
    hide Linked, BlocksApart, Accounted;
    var v := s.workers[s.current];
    var a, live := v.pc.p + v.pc.i, s.heap.live;
    ApartKept(s.workers, s.fixed, s.current, w);
    AccountedKept(s.workers, s.fixed, live, s.current, w);
    assert WorkerOk(v, live, s.ram.mem);
    assert Chunk(v.pc.p, SIZE).Has(a);
    LiveIsApart(s.heap, s.first, Chunk(v.pc.p, SIZE), a);
    LinkedAway(s.ram.mem, s.first, s.heap.chunks, s.heap.lo, s.heap.hi, a, w.mark);
    var s' := Go(s.(ram := Apply(s.ram, Word(a, w.mark))), w);
    forall u | 0 <= u < |s'.workers| ensures WorkerOk(s'.workers[u], live, s'.ram.mem) {
      if u != s.current { FillSpares(s, u, a); } else { FillStamps(v, live, s.ram.mem, a); }
    }
  }

  lemma FillStamps(v: Worker, live: set<Chunk>, mem: Memory, a: nat)
    requires WorkerOk(v, live, mem) && v.pc.Fill? && v.pc.i < SIZE && a == v.pc.p + v.pc.i
    ensures WorkerOk(v.(pc := Fill(v.pc.p, v.pc.i + 1)), live, mem[a := v.mark])
  {
    var after := mem[a := v.mark];
    forall c: int | v.pc.p <= c < v.pc.p + v.pc.i + 1 ensures Peek(after, c) == v.mark {
      assert c != a ==> Peek(mem, c) == v.mark;
    }
  }

  lemma FillSpares(s: Sys, u: nat, a: nat)
    requires Running(s) && u < |s.workers| && u != s.current
    requires var v := s.workers[s.current]; v.pc.Fill? && v.pc.i < SIZE && a == v.pc.p + v.pc.i
    ensures WorkerOk(s.workers[u], s.heap.live, Apply(s.ram, Word(a, s.workers[s.current].mark)).mem)
  {
    hide RamOk, Lock, Accounted;
    var v, w := s.workers[s.current], s.workers[u];
    assert WorkerOk(v, s.heap.live, s.ram.mem) && WorkerOk(w, s.heap.live, s.ram.mem);
    var p := w.pc.Block();
    assert Differ(w.pc, v.pc) by {
      if u < s.current { assert Differ(w.pc, v.pc); } else { assert Differ(v.pc, w.pc); }
    }
    if p != NULL {
      assert Chunk(v.pc.p, SIZE).Has(a);
      assert !Chunk(p, SIZE).Has(a);
    }
    OthersKept(w, s.heap.live, s.ram, Word(a, v.mark));
  }

  // ---- the walk of Allocate -------------------------------------------------------------

  lemma {:induction false} DoneSplit(r: Ram, a: seq<Store>, b: seq<Store>)
    ensures Done(r, a + b) == Done(Done(r, a), b)
    decreases |a|
  {
    hide Apply;
    if a == [] {
      assert a + b == b;
    } else {
      assert (a + b)[1..] == a[1..] + b;
      DoneSplit(Apply(r, a[0]), a[1..], b);
    }
  }

  lemma DoneOne(r: Ram, x: Store)
    ensures Done(r, [x]) == Apply(r, x)
  {
    hide Apply;
    assert [x][1..] == [];
    assert Done(Apply(r, x), []) == Apply(r, x);
  }

  lemma DoneTwo(r: Ram, x: Store, y: Store)
    ensures Done(r, [x]) == Apply(r, x) && Done(r, [x, y]) == Apply(Apply(r, x), y)
  {
    hide Apply;
    DoneOne(r, x);
    DoneOne(Apply(r, x), y);
    assert [x, y][1..] == [y];
  }

  lemma DoneThree(r: Ram, x: Store, y: Store, z: Store)
    ensures Done(r, [x, y, z]) == Apply(Apply(Apply(r, x), y), z)
  {
    hide Apply;
    assert [x, y, z][1..] == [y, z];
    DoneTwo(Apply(r, x), y, z);
  }

  /** Carried through, the stores are the memory Allocate leaves. */
  lemma GrantDone(r: Ram, first: nat, cs: seq<Chunk>, k: nat, n: nat)
    requires k < |cs| && n <= cs[k].bytes
    ensures Done(r, GrantStores(first, cs, k, n)) == Ram(Granted(r.mem, first, cs, k, n, true), r.free - n)
  {
    hide Done, Zeroed;
    var rem, end := cs[k].addr + n, [Count(-(n as int)), Zero(cs[k].addr, n)];
    if cs[k].bytes == n {
      var w := Word(Before(first, cs, k), At(cs, k + 1));
      DoneSplit(r, [w], end);
      DoneTwo(r, w, w);
      DoneTwo(Apply(r, w), end[0], end[1]);
    } else {
      var w1, w2, w3 := Word(Before(first, cs, k), rem), Word(rem, At(cs, k + 1)), Word(rem + WORD, cs[k].bytes - n);
      DoneSplit(r, [w1, w2, w3], end);
      DoneThree(r, w1, w2, w3);
      DoneTwo(Apply(Apply(Apply(r, w1), w2), w3), end[0], end[1]);
    }
  }

  /** Every address the stores touch is the header field or was free. */
  lemma GrantTouches(first: nat, cs: seq<Chunk>, k: nat, n: nat, lo: nat, hi: nat, i: nat, a: int)
    requires Canonical(cs, lo, hi) && k < |cs| && n <= cs[k].bytes && n % 16 == 0
    requires i < |GrantStores(first, cs, k, n)| && Touches(GrantStores(first, cs, k, n)[i], a)
    ensures a == first || Covers(cs, a)
  {
    Roomy(cs, k, n, lo, hi);
    if k > 0 { Roomy(cs, k - 1, 0, lo, hi); }
    if a != first {
      assert cs[k].Has(a) || (k > 0 && cs[k - 1].Has(a));
    }
  }

  lemma RoundedSize()
    ensures RoundUp(SIZE) == SIZE
  {
    RoundUpFits(SIZE);
  }

  /** What entering Allocate gives the caller: a block that was free, live from now on. */
  lemma GrantedBlock(h: H.Heap, first: nat, k: nat)
    requires HeapOk(h, first) && Fit(h.chunks, SIZE, false) == Some(k)
    ensures var b, h' := Chunk(h.chunks[k].addr, SIZE), H.Step(h, H.AllocCall(SIZE, false));
            && HeapOk(h', first) && h' == h.(chunks := Carve(h.chunks, k, SIZE), live := h.live + {b})
            && b !in h.live && b.addr > 0 && Sum(h'.chunks) == Sum(h.chunks) - SIZE
            && (forall a: int | Covers(h.chunks, a) :: forall c | c in h.live :: !c.Has(a))
  {
    RoundedSize();
    H.StepAlloc(h, SIZE, false);
    AllocBytes(h.chunks, SIZE, false, h.lo, h.hi);
    var b := Chunk(h.chunks[k].addr, SIZE);
    assert h.chunks[k].InRegion(h.lo, h.hi);
    assert b.Has(b.addr);
    FreeNotLive(h, first, b.addr);
    forall a: int | Covers(h.chunks, a) ensures forall c | c in h.live :: !c.Has(a) {
      FreeNotLive(h, first, a);
    }
  }

  lemma FreeNotLive(h: H.Heap, first: nat, a: int)
    requires HeapOk(h, first)
    ensures Covers(h.chunks, a) ==> h.lo <= a < h.hi && a != first && forall c | c in h.live :: !c.Has(a)
  {
    if Covers(h.chunks, a) {
      H.CoveredInRegion(h.chunks, h.lo, h.hi, a);
      assert !H.Held(h.live, a);
    }
  }

  lemma GrantHarmless(h: H.Heap, first: nat, k: nat, i: nat)
    requires HeapOk(h, first) && Fit(h.chunks, SIZE, false) == Some(k) && i < |GrantStores(first, h.chunks, k, SIZE)|
    ensures var p := h.chunks[k].addr;
            Harmless(GrantStores(first, h.chunks, k, SIZE)[i], h.live + {Chunk(p, SIZE)}, p)
  {
    hide GrantStores, Touches, H.Inv;
    var st, p := GrantStores(first, h.chunks, k, SIZE)[i], h.chunks[k].addr;
    forall b, a: int | b in h.live + {Chunk(p, SIZE)} && b.Has(a) && Touches(st, a) ensures b.addr == p {
      if b in h.live {
        CanonicalOf(h, first);
        GrantTouches(first, h.chunks, k, SIZE, h.lo, h.hi, i, a);
        FieldNotLive(h, first, b, a);
        FreeNotLive(h, first, a);
      }
    }
  }

  lemma CanonicalOf(h: H.Heap, first: nat)
    requires HeapOk(h, first)
    ensures Canonical(h.chunks, h.lo, h.hi)
  {
  }

  lemma FieldNotLive(h: H.Heap, first: nat, b: Chunk, a: int)
    requires HeapOk(h, first) && b in h.live && b.Has(a)
    ensures a != first
  {
  }

  /** Memory, once the stores of Allocate are done, holds the list without the block. */
  lemma GrantRam(h: H.Heap, first: nat, ram: Ram, k: nat)
    requires HeapOk(h, first) && RamOk(h, first, ram, []) && Fit(h.chunks, SIZE, false) == Some(k)
    ensures RamOk(H.Step(h, H.AllocCall(SIZE, false)), first, ram, GrantStores(first, h.chunks, k, SIZE))
  {
    hide HeapOk, GrantStores, Linked, Granted;
    GrantedBlock(h, first, k);
    CanonicalOf(h, first);
    RegionOf(h, first);
    GrantDone(ram, first, h.chunks, k, SIZE);
    OutsideIsApart(first, h.chunks, h.lo, h.hi);
    GrantLinked(ram.mem, first, h.chunks, k, SIZE, h.lo, h.hi, true);
  }

  lemma RegionOf(h: H.Heap, first: nat)
    requires HeapOk(h, first)
    ensures Outside(first, h.lo, h.hi) && h.hi < WORD64 && h.lo % 16 == 0 && h.hi % 16 == 0
  {
  }

  lemma ApartPlus(workers: seq<Worker>, fixed: set<Chunk>, live: set<Chunk>, mem: Memory, c: nat, w: Worker)
    requires BlocksApart(workers, fixed) && c < |workers| && fixed <= live
    requires forall u | 0 <= u < |workers| :: WorkerOk(workers[u], live, mem)
    requires Chunk(w.pc.Block(), SIZE) !in live
    ensures BlocksApart(workers[c := w], fixed)
  {
    var after := workers[c := w];
    forall u, v | 0 <= u < v < |after| ensures Differ(after[u].pc, after[v].pc) {
      assert Differ(workers[u].pc, workers[v].pc);
      assert WorkerOk(workers[u], live, mem) && WorkerOk(workers[v], live, mem);
    }
  }

  lemma AccountedPlus(workers: seq<Worker>, fixed: set<Chunk>, live: set<Chunk>, c: nat, w: Worker)
    requires Accounted(workers, fixed, live) && c < |workers| && workers[c].pc.Block() == NULL && w.pc.Block() != NULL
    ensures Accounted(workers[c := w], fixed, live + {Chunk(w.pc.Block(), SIZE)})
  {
    var after := workers[c := w];
    assert HeldBy(after, Chunk(w.pc.Block(), SIZE), c);
    forall b | b in live && b !in fixed ensures exists u :: HeldBy(after, b, u) {
      var u :| HeldBy(workers, b, u);
      assert HeldBy(after, b, u);
    }
  }

  lemma WiderLive(w: Worker, live: set<Chunk>, b: Chunk, mem: Memory)
    requires WorkerOk(w, live, mem)
    ensures WorkerOk(w, live + {b}, mem)
  {
  }

  /** Chunks lie at positive addresses, clear of the header field. */
  lemma ChunksReal(h: H.Heap, first: nat)
    requires HeapOk(h, first)
    ensures forall i | 0 <= i < |h.chunks| :: 0 < h.chunks[i].addr && h.chunks[i].addr != first
  {
    forall i | 0 <= i < |h.chunks| ensures 0 < h.chunks[i].addr && h.chunks[i].addr != first {
      assert h.chunks[i].InRegion(h.lo, h.hi);
    }
  }

  /** The walk of Allocate reads the list: it stops at the first chunk that fits, and its stores
      are those on that chunk. */
  lemma AllocWalkReads(h: H.Heap, first: nat, mem: Memory, p1: int, p2: int, i: nat)
    requires HeapOk(h, first) && Linked(mem, first, h.chunks) && WalkOk(AllocWalk(p1, p2, i), h.chunks, first)
    ensures p2 == NULL <==> i == |h.chunks|
    ensures p2 == NULL ==> Fit(h.chunks, SIZE, false).None?
    ensures p2 != NULL && Peek(mem, p2 + WORD) < SIZE ==> WalkOk(AllocWalk(p2, Peek(mem, p2), i + 1), h.chunks, first)
    ensures p2 != NULL && Peek(mem, p2 + WORD) >= SIZE ==>
              && Fit(h.chunks, SIZE, false) == Some(i) && p2 == h.chunks[i].addr
              && GrantReads(mem, p1, p2) == GrantStores(first, h.chunks, i, SIZE)
  {
    hide HeapOk, Linked, Fit;
    ChunksReal(h, first);
    if i < |h.chunks| {
      LinkAt(mem, first, h.chunks, i + 1);
      if h.chunks[i].bytes >= SIZE {
        assert IsFit(h.chunks, SIZE, false, i);
        FitUnique(h.chunks, SIZE, false, i);
      }
    }
  }

  lemma AllocWalkKeeps(s: Sys)
    requires Running(s) && s.workers[s.current].pc.AllocWalk?
    ensures Inv(Step(s))
  {
    hide HeapOk, WorkerOk, BlocksApart, Accounted, Harmless, GrantStores, GrantReads, H.Step, Fit, WalkOk, Linked;
    var w := s.workers[s.current];
    DoneNothing(s.ram);
    AllocWalkReads(s.heap, s.first, s.ram.mem, w.pc.p1, w.pc.p2, w.pc.i);
    WalkerOk(w, s.heap.live, s.ram.mem);
    if w.pc.p2 == NULL {
      NoWalk(AllocPermit(NULL), s.heap.chunks, s.first);
      QuietKeeps(s, w.(pc := AllocPermit(NULL)), 1);
    } else if Peek(s.ram.mem, w.pc.p2 + WORD) < SIZE {
      QuietKeeps(s, w.(pc := AllocWalk(w.pc.p2, Peek(s.ram.mem, w.pc.p2), w.pc.i + 1)), 1);
    } else {
      GrantKeeps(s, w.pc.i);
    }
  }

  lemma NoWalk(pc: Pc, cs: seq<Chunk>, first: nat)
    requires !pc.AllocWalk? && !pc.FreeWalk?
    ensures WalkOk(pc, cs, first)
  {
  }

  lemma GrantKeeps(s: Sys, k: nat)
    requires Running(s) && s.workers[s.current].pc.AllocWalk? && Fit(s.heap.chunks, SIZE, false) == Some(k)
    requires s.workers[s.current].pc.p2 == s.heap.chunks[k].addr
               && Peek(s.ram.mem, s.heap.chunks[k].addr + WORD) >= SIZE
    requires GrantReads(s.ram.mem, s.workers[s.current].pc.p1, s.workers[s.current].pc.p2)
               == GrantStores(s.first, s.heap.chunks, k, SIZE)
    ensures Inv(Step(s))
  {
    hide HeapOk, RamOk, WorkerOk, BlocksApart, Accounted, Harmless, GrantStores, GrantReads, H.Step, Fit, WalkOk;
    var w := s.workers[s.current];
    GrantedBlock(s.heap, s.first, k);
    GrantRam(s.heap, s.first, s.ram, k);
    var p := s.heap.chunks[k].addr;
    var w' := w.(pc := AllocStores(GrantStores(s.first, s.heap.chunks, k, SIZE), p));
    FixedLive(s.workers, s.fixed, s.heap.live);
    ApartPlus(s.workers, s.fixed, s.heap.live, s.ram.mem, s.current, w');
    AccountedPlus(s.workers, s.fixed, s.heap.live, s.current, w');
    forall i | 0 <= i < |w'.pc.todo| ensures Harmless(w'.pc.todo[i], s.heap.live + {Chunk(p, SIZE)}, p) {
      GrantHarmless(s.heap, s.first, k, i);
    }
    var s' := Step(s);
    NoWalk(w'.pc, s'.heap.chunks, s.first);
    forall u | 0 <= u < |s'.workers| ensures WorkerOk(s'.workers[u], s.heap.live + {Chunk(p, SIZE)}, s.ram.mem) {
      WiderLive(s.workers[u], s.heap.live, Chunk(p, SIZE), s.ram.mem);
      if u == s.current { EnteredOk(w, w', s.heap.live, s.ram.mem); }
    }
  }

  lemma FixedLive(workers: seq<Worker>, fixed: set<Chunk>, live: set<Chunk>)
    requires Accounted(workers, fixed, live)
    ensures fixed <= live
  {
  }

  /** A worker whose walk goes on, or comes back empty, holds what it held. */
  lemma WalkerOk(w: Worker, live: set<Chunk>, mem: Memory)
    requires WorkerOk(w, live, mem) && (w.pc.AllocEnter? || w.pc.AllocWalk?)
    ensures WorkerOk(w.(pc := AllocPermit(NULL)), live, mem)
    ensures forall p1, p2, i :: WorkerOk(w.(pc := AllocWalk(p1, p2, i)), live, mem)
  {
  }

  lemma EnteredOk(w: Worker, w': Worker, live: set<Chunk>, mem: Memory)
    requires WorkerOk(w, live, mem) && w.pc.AllocWalk? && w' == w.(pc := w'.pc) && w'.pc.AllocStores? && w'.pc.p != NULL
    ensures WorkerOk(w', live + {Chunk(w'.pc.p, SIZE)}, mem)
  {
  }

  // ---- the walk of Deallocate -----------------------------------------------------------

  lemma ReleaseDone(r: Ram, first: nat, cs: seq<Chunk>, b: Chunk)
    requires !Overlaps(cs, b)
    ensures Done(r, ReleaseStores(first, cs, b)) == Ram(Released(r.mem, first, cs, b), r.free + b.bytes)
  {
    hide Done, Overlaps, Merged, MergeLeft, MergeRight, Position;
    var m, i := Merged(cs, b), Position(cs, b.addr);
    var front := if MergeLeft(cs, b) < i then [] else [Word(Before(first, cs, i), b.addr)];
    var x, y, z := Word(m.addr, At(cs, MergeRight(cs, b))), Word(m.addr + WORD, m.bytes), Count(b.bytes);
    DoneSplit(r, front, [x, y, z]);
    DoneNothing(r);
    if front != [] { DoneOne(r, front[0]); }
    DoneThree(Done(r, front), x, y, z);
  }

  lemma DoneNothing(r: Ram)
    ensures Done(r, []) == r
  {
  }

  /** Every address the stores touch is the header field or free afterwards. */
  lemma ReleaseTouches(first: nat, cs: seq<Chunk>, b: Chunk, lo: nat, hi: nat, i: nat, a: int)
    requires Canonical(cs, lo, hi) && b.InRegion(lo, hi) && !Overlaps(cs, b)
    requires i < |ReleaseStores(first, cs, b)|
    ensures Touches(ReleaseStores(first, cs, b)[i], a) ==> a == first || Covers(cs, a) || Covers([Merged(cs, b)], a)
  {
    hide Canonical, Position, Overlaps, Merged, MergeLeft, MergeRight;
    var m, j := Merged(cs, b), Position(cs, b.addr);
    MergedRange(cs, b, lo, hi);
    assert m.bytes >= 16 && [m][0] == m;
    if j > 0 {
      Roomy(cs, j - 1, 0, lo, hi);
      assert cs[j - 1].Has(cs[j - 1].addr);
    }
    if a == m.addr || a == m.addr + WORD { assert [m][0].Has(a); }
  }

  lemma MergedFree(cs: seq<Chunk>, b: Chunk, a: int)
    requires !Overlaps(cs, b)
    ensures Covers([Merged(cs, b)], a) ==> Covers(Release(cs, b).value, a)
  {
    hide Merged, Overlaps;
    var l, r, m := MergeLeft(cs, b), MergeRight(cs, b), Merged(cs, b);
    assert l <= r;
    SpliceCovers(cs, l, [m], r, a);
  }

  /** What entering Deallocate with a live block does: no double free, and the block is free. */
  lemma ReleasedBlock(h: H.Heap, first: nat, b: Chunk)
    requires HeapOk(h, first) && b in h.live
    ensures b.InRegion(h.lo, h.hi) && !Overlaps(h.chunks, b)
    ensures var h' := H.Step(h, H.FreeCall(b));
            && HeapOk(h', first) && h' == h.(chunks := Release(h.chunks, b).value, live := h.live - {b})
            && Sum(h'.chunks) == Sum(h.chunks) + b.bytes
            && forall a: int :: Covers(h'.chunks, a) <==> Covers(h.chunks, a) || b.Has(a)
  {
    hide Overlaps, Merged;
    H.StepFree(h, b);
    ReleaseBytes(h.chunks, b, h.lo, h.hi);
  }

  lemma ReleaseHarmless(h: H.Heap, first: nat, b: Chunk, i: nat)
    requires HeapOk(h, first) && b in h.live && !Overlaps(h.chunks, b) && i < |ReleaseStores(first, h.chunks, b)|
    ensures Harmless(ReleaseStores(first, h.chunks, b)[i], h.live - {b}, NULL)
  {
    hide ReleaseStores, Touches, HeapOk, Overlaps, Merged, Covers, Release;
    var st := ReleaseStores(first, h.chunks, b)[i];
    ReleasedBlock(h, first, b);
    var h' := H.Step(h, H.FreeCall(b));
    CanonicalOf(h, first);
    forall c, a: int | c in h'.live && c.Has(a) ensures !Touches(st, a) {
      ReleaseTouches(first, h.chunks, b, h.lo, h.hi, i, a);
      FieldNotLive(h', first, c, a);
      MergedFree(h.chunks, b, a);
      FreeNotLive(h', first, a);
    }
  }

  lemma ReleaseRam(h: H.Heap, first: nat, ram: Ram, b: Chunk)
    requires HeapOk(h, first) && RamOk(h, first, ram, []) && b in h.live && !Overlaps(h.chunks, b)
    ensures RamOk(H.Step(h, H.FreeCall(b)), first, ram, ReleaseStores(first, h.chunks, b))
  {
    hide HeapOk, ReleaseStores, Linked, Released, Overlaps, Merged, Release;
    ReleasedBlock(h, first, b);
    CanonicalOf(h, first);
    RegionOf(h, first);
    ReleaseDone(ram, first, h.chunks, b);
    OutsideIsApart(first, h.chunks, h.lo, h.hi);
    ReleaseLinked(ram.mem, first, h.chunks, b, h.lo, h.hi);
  }

  lemma AccountedMinus(workers: seq<Worker>, fixed: set<Chunk>, live: set<Chunk>, c: nat, w: Worker)
    requires Accounted(workers, fixed, live) && BlocksApart(workers, fixed) && c < |workers|
    requires workers[c].pc.Block() != NULL && w.pc.Block() == NULL
    ensures Accounted(workers[c := w], fixed, live - {Chunk(workers[c].pc.Block(), SIZE)})
  {
    var after, gone := workers[c := w], Chunk(workers[c].pc.Block(), SIZE);
    forall b | b in live - {gone} && b !in fixed ensures exists u :: HeldBy(after, b, u) {
      var u :| HeldBy(workers, b, u);
      assert HeldBy(after, b, u);
    }
  }

  lemma NarrowerLive(workers: seq<Worker>, fixed: set<Chunk>, live: set<Chunk>, mem: Memory, c: nat, u: nat)
    requires BlocksApart(workers, fixed) && c < |workers| && u < |workers| && u != c && workers[c].pc.Block() != NULL
    requires WorkerOk(workers[u], live, mem)
    ensures WorkerOk(workers[u], live - {Chunk(workers[c].pc.Block(), SIZE)}, mem)
  {
    if u < c { assert Differ(workers[u].pc, workers[c].pc); } else { assert Differ(workers[c].pc, workers[u].pc); }
  }

  /** The walk of Deallocate reads the list: it stops at the block's place, and its comparisons
      and stores are those on the neighbours there. */
  lemma FreeWalkReads(h: H.Heap, first: nat, mem: Memory, p: nat, p1: int, p2: int, i: nat)
    requires HeapOk(h, first) && Linked(mem, first, h.chunks) && WalkOk(FreeWalk(p, p1, p2, i), h.chunks, first)
    ensures p2 != NULL && p2 < FreedBlock(p, SIZE).addr ==>
              WalkOk(FreeWalk(p, p2, Peek(mem, p2), i + 1), h.chunks, first)
    ensures !(p2 != NULL && p2 < FreedBlock(p, SIZE).addr) ==>
              var b := FreedBlock(p, SIZE);
              ReleaseReads(mem, first, p1, p2, i, b) ==
              if Overlaps(h.chunks, b) then None
              else Some(if h.chunks == [] then EmptyStores(first, b) else ReleaseStores(first, h.chunks, b))
  {
    hide HeapOk, Linked, Overlaps, Merged, MergeLeft, MergeRight, FreedBlock, Position;
    ChunksReal(h, first);
    var cs, b := h.chunks, FreedBlock(p, SIZE);
    if i < |cs| { LinkAt(mem, first, cs, i + 1); }
    if i > 0 { LinkAt(mem, first, cs, i); }
    if !(p2 != NULL && p2 < b.addr) {
      PositionUnique(cs, b.addr, i);
      MergeCases(cs, b);
    }
  }

  /** Into an empty list the stores come in another order, to the same effect. */
  lemma EmptyDone(r: Ram, first: nat, b: Chunk)
    requires first != b.addr && first != b.addr + WORD
    ensures !Overlaps([], b) && Done(r, EmptyStores(first, b)) == Done(r, ReleaseStores(first, [], b))
  {
    var x, y, z, n := Word(b.addr + WORD, b.bytes), Word(b.addr, NULL), Word(first, b.addr), Count(b.bytes);
    assert EmptyStores(first, b) == [x, y, z] + [n];
    assert ReleaseStores(first, [], b) == [z, y, x] + [n];
    hide Done;
    DoneSplit(r, [x, y, z], [n]);
    DoneSplit(r, [z, y, x], [n]);
    DoneThree(r, x, y, z);
    DoneThree(r, z, y, x);
    assert r.mem[b.addr + WORD := b.bytes][b.addr := NULL][first := b.addr]
        == r.mem[first := b.addr][b.addr := NULL][b.addr + WORD := b.bytes];
  }

  lemma EmptyHarmless(h: H.Heap, first: nat, b: Chunk, i: nat)
    requires HeapOk(h, first) && b in h.live && h.chunks == [] && i < 4
    ensures Harmless(EmptyStores(first, b)[i], h.live - {b}, NULL)
  {
    hide HeapOk;
    ReleasedBlock(h, first, b);
    var stores := ReleaseStores(first, [], b);
    assert stores == [Word(first, b.addr), Word(b.addr, NULL), Word(b.addr + WORD, b.bytes), Count(b.bytes)];
    var j := if i == 0 then 2 else if i == 2 then 0 else i;
    ReleaseHarmless(h, first, b, j);
    assert EmptyStores(first, b)[i] == stores[j];
  }

  /** The stores Deallocate makes on a block, empty list or not. */
  function FreeingStores(first: nat, cs: seq<Chunk>, b: Chunk): seq<Store>
    requires !Overlaps(cs, b)
  {
    if cs == [] then EmptyStores(first, b) else ReleaseStores(first, cs, b)
  }

  lemma FreeingRam(h: H.Heap, first: nat, ram: Ram, b: Chunk)
    requires HeapOk(h, first) && RamOk(h, first, ram, []) && b in h.live && !Overlaps(h.chunks, b)
    ensures RamOk(H.Step(h, H.FreeCall(b)), first, ram, FreeingStores(first, h.chunks, b))
    ensures StoresOk(FreeingStores(first, h.chunks, b), h.live - {b}, NULL)
  {
    hide HeapOk, ReleaseStores, EmptyStores, Harmless, Overlaps, H.Step, Linked;
    ReleaseRam(h, first, ram, b);
    var todo := FreeingStores(first, h.chunks, b);
    if h.chunks == [] {
      ReleasedBlock(h, first, b);
      BlockOffField(h, first, b);
      EmptyDone(ram, first, b);
      FourStores(first, b);
      forall i | 0 <= i < |todo| ensures Harmless(todo[i], h.live - {b}, NULL) { EmptyHarmless(h, first, b, i); }
    } else {
      forall i | 0 <= i < |todo| ensures Harmless(todo[i], h.live - {b}, NULL) { ReleaseHarmless(h, first, b, i); }
    }
  }

  lemma FourStores(first: nat, b: Chunk)
    ensures |EmptyStores(first, b)| == 4
  {
  }

  lemma BlockOffField(h: H.Heap, first: nat, b: Chunk)
    requires HeapOk(h, first) && b.InRegion(h.lo, h.hi)
    ensures first != b.addr && first != b.addr + WORD
  {
  }

  lemma FreeWalkKeeps(s: Sys)
    requires Running(s) && s.workers[s.current].pc.FreeWalk?
    ensures Inv(Step(s))
  {
    hide HeapOk, WorkerOk, BlocksApart, Accounted, Harmless, ReleaseStores, EmptyStores, ReleaseReads, H.Step,
      Overlaps, WalkOk, Linked, FreedBlock;
    var w := s.workers[s.current];
    var p, p2, live := w.pc.p, w.pc.p2, s.heap.live;
    DoneNothing(s.ram);
    FreeWalkReads(s.heap, s.first, s.ram.mem, p, w.pc.p1, p2, w.pc.i);
    LeaveOk(w, live, s.ram.mem);
    if p2 != NULL && p2 < FreedBlock(p, SIZE).addr {
      QuietKeeps(s, w.(pc := FreeWalk(p, p2, Peek(s.ram.mem, p2), w.pc.i + 1)), 1);
    } else {
      ReleasedBlock(s.heap, s.first, Chunk(p, SIZE));
      RoundedSize();
      FreedIsGranted(p, SIZE);
      ReleaseKeeps(s);
    }
  }

  lemma ReleaseKeeps(s: Sys)
    requires Running(s) && s.workers[s.current].pc.FreeWalk?
    requires var w, b := s.workers[s.current], Chunk(s.workers[s.current].pc.p, SIZE);
             && b in s.heap.live && !Overlaps(s.heap.chunks, b) && FreedBlock(w.pc.p, SIZE) == b
             && !(w.pc.p2 != NULL && w.pc.p2 < b.addr)
             && ReleaseReads(s.ram.mem, s.first, w.pc.p1, w.pc.p2, w.pc.i, b)
                  == Some(FreeingStores(s.first, s.heap.chunks, b))
    ensures Inv(Step(s))
  {
    hide HeapOk, RamOk, WorkerOk, BlocksApart, Accounted, StoresOk, FreeingStores, ReleaseReads, H.Step, Overlaps,
      WalkOk, FreedBlock;
    var w := s.workers[s.current];
    var live, b := s.heap.live, Chunk(w.pc.p, SIZE);
    LeaveOk(w, live, s.ram.mem);
    ReleasedBlock(s.heap, s.first, b);
    FreeingRam(s.heap, s.first, s.ram, b);
    var w' := w.(pc := FreeStores(FreeingStores(s.first, s.heap.chunks, b)));
    ApartKept(s.workers, s.fixed, s.current, w');
    AccountedMinus(s.workers, s.fixed, live, s.current, w');
    var s' := Step(s);
    NoWalk(w'.pc, s'.heap.chunks, s.first);
    forall u | 0 <= u < |s'.workers| ensures WorkerOk(s'.workers[u], live - {b}, s.ram.mem) {
      if u != s.current { NarrowerLive(s.workers, s.fixed, live, s.ram.mem, s.current, u); }
      else { LeftOk(w, w', live - {b}, live, s.ram.mem); }
    }
  }

  lemma LeaveOk(w: Worker, live: set<Chunk>, mem: Memory)
    requires WorkerOk(w, live, mem) && (w.pc.FreeEnter? || w.pc.FreeWalk?)
    ensures w.pc.p != NULL && Chunk(w.pc.p, SIZE) in live
    ensures forall p1, p2, i :: WorkerOk(w.(pc := FreeWalk(w.pc.p, p1, p2, i)), live, mem)
  {
  }

  lemma LeftOk(w: Worker, w': Worker, after: set<Chunk>, live: set<Chunk>, mem: Memory)
    requires WorkerOk(w, live, mem) && w.pc.FreeWalk? && w' == w.(pc := w'.pc) && w'.pc.FreeStores?
    ensures WorkerOk(w', after, mem)
  {
  }

  /** Entering either walk, at the head of the list, or finding mh_Free too small. */
  lemma EnterKeeps(s: Sys)
    requires Running(s) && (s.workers[s.current].pc.AllocEnter? || s.workers[s.current].pc.FreeEnter?)
    ensures Inv(Step(s))
  {
    hide HeapOk, WorkerOk, BlocksApart, Accounted, WalkOk, Linked;
    var w := s.workers[s.current];
    DoneNothing(s.ram);
    LinkAt(s.ram.mem, s.first, s.heap.chunks, 0);
    if w.pc.AllocEnter? {
      WalkerOk(w, s.heap.live, s.ram.mem);
      NoWalk(AllocPermit(NULL), s.heap.chunks, s.first);
      WalkStarts(AllocWalk(s.first, Peek(s.ram.mem, s.first), 0), s.heap.chunks, s.first);
    } else {
      LeaveOk(w, s.heap.live, s.ram.mem);
      WalkStarts(FreeWalk(w.pc.p, s.first, Peek(s.ram.mem, s.first), 0), s.heap.chunks, s.first);
    }
    QuietKeeps(s, Step(s).workers[s.current], 1);
  }

  lemma WalkStarts(pc: Pc, cs: seq<Chunk>, first: nat)
    requires (pc.AllocWalk? || pc.FreeWalk?) && pc.p1 == first && pc.p2 == At(cs, 0) && pc.i == 0
    ensures WalkOk(pc, cs, first)
  {
  }

  // ---- every step ----------------------------------------------------------------------

  /** A statement that neither enters the allocator nor stores. */
  predicate Quiet(pc: Pc)
  {
    && !pc.AllocEnter? && !pc.AllocWalk? && !pc.FreeEnter? && !pc.FreeWalk?
    && pc.Todo() == [] && !(pc.Fill? && pc.i < SIZE)
  }

  lemma QuietOk(s: Sys)
    requires s.current < |s.workers| && Quiet(s.workers[s.current].pc)
    requires WorkerOk(s.workers[s.current], s.heap.live, s.ram.mem)
    requires s.forbid == if s.workers[s.current].pc.Critical() then 1 else 0
    ensures var w, s' := s.workers[s.current], Step(s);
            var w' := s'.workers[s.current];
            && |s'.workers| == |s.workers| && s' == Go(s.(forbid := s'.forbid), w')
            && w'.pc.Block() == w.pc.Block() && w'.pc.Todo() == [] && !w'.pc.AllocWalk? && !w'.pc.FreeWalk?
            && s'.forbid == if w'.pc.Critical() then 1 else 0
  {
  }

  lemma QuietWorker(s: Sys)
    requires s.current < |s.workers| && Quiet(s.workers[s.current].pc)
    requires WorkerOk(s.workers[s.current], s.heap.live, s.ram.mem)
    ensures |Step(s).workers| == |s.workers| && WorkerOk(Step(s).workers[s.current], s.heap.live, s.ram.mem)
  {
    var w := s.workers[s.current];
    if w.pc.Check? && w.pc.i < SIZE { assert Peek(s.ram.mem, w.pc.p + w.pc.i) == w.mark; }
  }

  lemma StatementKeeps(s: Sys)
    requires Running(s)
    ensures Inv(Step(s))
  {
    hide HeapOk, RamOk, WorkerOk, BlocksApart, Accounted, StoresOk, AllocWalked, FreeWalked, Apply, WalkOk;
    var w := s.workers[s.current];
    assert WorkerOk(w, s.heap.live, s.ram.mem);
    if w.pc.AllocEnter? || w.pc.FreeEnter? { EnterKeeps(s); }
    else if w.pc.AllocWalk? { AllocWalkKeeps(s); }
    else if w.pc.FreeWalk? { FreeWalkKeeps(s); }
    else if w.pc.Todo() != [] { StoreKeeps(s, Step(s).workers[s.current]); }
    else if w.pc.Fill? && w.pc.i < SIZE { FillKeeps(s, Step(s).workers[s.current]); }
    else {
      QuietOk(s);
      NoWalk(Step(s).workers[s.current].pc, s.heap.chunks, s.first);
      QuietWorker(s);
      QuietKeeps(s, Step(s).workers[s.current], Step(s).forbid);
    }
  }

  /** With dispatch allowed no allocator call is under way, so a tick switches between whole heaps. */
  lemma TimerKeeps(s: Sys, to: nat)
    requires Inv(s) && s.forbid == 0 && to < |s.workers|
    ensures Inv(s.(current := to))
  {
    hide HeapOk, RamOk, WorkerOk, BlocksApart, Accounted;
    var s' := s.(current := to);
    assert Todo(s) == [] && Todo(s') == [];
  }

  lemma NextKeepsInv(s: Sys, a: Action)
    requires Inv(s)
    ensures Inv(Next(s, a))
  {
    hide Inv;
    match a
    case Statement => if s.current < |s.workers| { StatementKeeps(s); }
    case Timer(to) => if s.forbid == 0 && to < |s.workers| { TimerKeeps(s, to); }
  }

  // ---- whole runs ----------------------------------------------------------------------

  function Run(s: Sys, actions: seq<Action>): Sys
    decreases |actions|
  {
    if actions == [] then s else Run(Next(s, actions[0]), actions[1..])
  }

  lemma {:induction false} RunKeepsInv(s: Sys, actions: seq<Action>)
    requires Inv(s)
    ensures Inv(Run(s, actions))
    decreases |actions|
  {
    hide Inv;
    if actions == [] {
    } else {
      NextKeepsInv(s, actions[0]);
      RunKeepsInv(Next(s, actions[0]), actions[1..]);
    }
  }

  /** Task structures and stacks handed out, every worker about to start, the boot task running. */
  ghost predicate Spawned(s: Sys)
  {
    && HeapOk(s.heap, s.first) && s.heap.live == s.fixed && RamOk(s.heap, s.first, s.ram, [])
    && s.current == |s.workers| && s.forbid == 0
    && forall u | 0 <= u < |s.workers| ::
         s.workers[u].pc == Start && s.workers[u].ran == 0 && s.workers[u].good == 0 && s.workers[u].missed == 0
  }

  lemma SpawnedInv(s: Sys)
    requires Spawned(s)
    ensures Inv(s)
  {
    hide HeapOk, RamOk;
  }

  /** Whatever the timer schedule: wherever a switch can happen, memory holds a canonical free
      list covering exactly the bytes that no live block has, and mh_Free is its sum. */
  lemma HeapWholeAtEverySwitch(s: Sys, actions: seq<Action>)
    requires Spawned(s)
    ensures var r := Run(s, actions);
            && H.Inv(r.heap)
            && (r.forbid == 0 ==> Linked(r.ram.mem, r.first, r.heap.chunks) && r.ram.free == Sum(r.heap.chunks))
  {
    hide Next, Linked, H.Inv;
    SpawnedInv(s);
    RunKeepsInv(s, actions);
    var r := Run(s, actions);
    if r.forbid == 0 {
      assert Todo(r) == [];
      DoneNothing(r.ram);
    }
  }

  /** Whatever the timer schedule: the blocks of two workers share no byte. */
  lemma BlocksDisjoint(s: Sys, actions: seq<Action>, u: nat, v: nat, a: int)
    requires Spawned(s) && u < |Run(s, actions).workers| && v < |Run(s, actions).workers| && u != v
    requires var p := Run(s, actions).workers[u].pc.Block(); p != NULL && Chunk(p, SIZE).Has(a)
    requires Run(s, actions).workers[v].pc.Block() != NULL
    ensures !Chunk(Run(s, actions).workers[v].pc.Block(), SIZE).Has(a)
  {
    SpawnedInv(s);
    RunKeepsInv(s, actions);
    PairDisjoint(Run(s, actions), u, v, a);
  }

  lemma PairDisjoint(s: Sys, u: nat, v: nat, a: int)
    requires Inv(s) && u < |s.workers| && v < |s.workers| && u != v
    requires var p := s.workers[u].pc.Block(); p != NULL && Chunk(p, SIZE).Has(a)
    requires s.workers[v].pc.Block() != NULL
    ensures !Chunk(s.workers[v].pc.Block(), SIZE).Has(a)
  {
    hide RamOk, Lock, Accounted;
    if u < v { assert Differ(s.workers[u].pc, s.workers[v].pc); }
    else { assert Differ(s.workers[v].pc, s.workers[u].pc); }
    assert WorkerOk(s.workers[u], s.heap.live, s.ram.mem) && WorkerOk(s.workers[v], s.heap.live, s.ram.mem);
  }

  /** Whatever the timer schedule: no pattern check fails. Every round a worker has finished was
      either good or found no memory, and a check under way has passed so far. */
  lemma PatternNeverFails(s: Sys, actions: seq<Action>, u: nat)
    requires Spawned(s) && u < |Run(s, actions).workers|
    ensures var w := Run(s, actions).workers[u];
            && w.ran == w.good + w.missed + (if InRound(w.pc) then 1 else 0)
            && (w.pc.Check? || w.pc.Judge? ==> w.pc.ok)
  {
    hide Next;
    SpawnedInv(s);
    RunKeepsInv(s, actions);
    assert WorkerOk(Run(s, actions).workers[u], Run(s, actions).heap.live, Run(s, actions).ram.mem);
  }

  lemma {:induction false} RunKeepsRegion(s: Sys, actions: seq<Action>)
    ensures var r := Run(s, actions); r.heap.lo == s.heap.lo && r.heap.hi == s.heap.hi && r.fixed == s.fixed
    decreases |actions|
  {
    if actions == [] {
    } else {
      StepKeepsRegion(s, actions[0]);
      RunKeepsRegion(Next(s, actions[0]), actions[1..]);
    }
  }

  lemma StepKeepsRegion(s: Sys, a: Action)
    ensures var r := Next(s, a); r.heap.lo == s.heap.lo && r.heap.hi == s.heap.hi && r.fixed == s.fixed
  {
    hide Fit, Overlaps, GrantReads, ReleaseReads, Apply;
  }

  lemma NoneHeld(workers: seq<Worker>, fixed: set<Chunk>, live: set<Chunk>)
    requires Accounted(workers, fixed, live)
    requires forall u | 0 <= u < |workers| :: workers[u].pc.Block() == NULL
    ensures live == fixed
  {
    assert forall b, u :: !HeldBy(workers, b, u);
    assert forall b | b in live :: b in fixed;
  }

  /** Whatever the timer schedule: once no worker holds a block, the free list and mh_Free are
      those of the start again, chunk for chunk. */
  lemma NothingLeaks(s: Sys, actions: seq<Action>)
    requires Spawned(s)
    requires forall u | 0 <= u < |Run(s, actions).workers| :: Run(s, actions).workers[u].pc.Block() == NULL
    ensures Run(s, actions).heap == s.heap
    ensures Run(s, actions).forbid == 0 ==> Run(s, actions).ram.free == s.ram.free
  {
    hide Next, Linked, H.Inv;
    SpawnedInv(s);
    RunKeepsInv(s, actions);
    RunKeepsRegion(s, actions);
    var r := Run(s, actions);
    NoneHeld(r.workers, s.fixed, r.heap.live);
    H.ListFromLive(r.heap, s.heap);
    DoneNothing(s.ram);
    if r.forbid == 0 { HeapWholeAtEverySwitch(s, actions); }
  }
}
