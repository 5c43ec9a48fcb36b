/** Room for every worker: with one chunk left that holds a block for each of them, first fit
    packs the blocks of that chunk edge to edge, so no worker is ever turned away. */
module KernRoom {
  import opened FreeList
  import opened MemHeaders
  import opened KernHeap
  import H = Heap

  /** A block at p stays clear of chunk c, or starts a whole number of blocks into it. */
  predicate InPlace(p: nat, c: Chunk)
  {
    p + SIZE <= c.addr || c.End() <= p || (c.addr <= p && (p - c.addr) % SIZE == 0)
  }

  ghost predicate AllInPlace(workers: seq<Worker>, c: Chunk)
  {
    forall u | 0 <= u < |workers| && workers[u].pc.Block() != NULL :: InPlace(workers[u].pc.Block(), c)
  }

  /** Of the bytes handed out before the start none is in c, and one is just below it. */
  ghost predicate Fenced(fixed: set<Chunk>, c: Chunk, lo: nat)
  {
    && 0 < lo <= c.addr
    && (forall b, a: int | b in fixed && b.Has(a) :: !c.Has(a))
    && (c.addr > lo ==> H.Held(fixed, c.addr - 1))
  }

  /** The worker has always been given a block. */
  predicate Served(w: Worker)
  {
    w.missed == 0 && w.pc != AllocPermit(NULL) && w.pc != Idle
  }

  ghost predicate RoomOk(s: Sys, c: Chunk)
  {
    && c.bytes >= |s.workers| * SIZE && Fenced(s.fixed, c, s.heap.lo) && AllInPlace(s.workers, c)
    && forall u | 0 <= u < |s.workers| :: Served(s.workers[u])
  }

  // ---- what first fit hands out --------------------------------------------------------

  /** A byte of c that is not free lies in a worker's block, which starts in c. */
  lemma TakenByWorker(s: Sys, c: Chunk, a: nat) returns (u: nat)
    requires Inv(s) && Fenced(s.fixed, c, s.heap.lo) && AllInPlace(s.workers, c)
    requires c.Has(a) && a < s.heap.hi && !Covers(s.heap.chunks, a)
    ensures u < |s.workers| && s.workers[u].pc.Block() != NULL
    ensures Chunk(s.workers[u].pc.Block(), SIZE).Has(a) && Chunk(s.workers[u].pc.Block(), SIZE) in s.heap.live
    ensures c.addr <= s.workers[u].pc.Block() && (s.workers[u].pc.Block() - c.addr) % SIZE == 0
  {
    hide RamOk, StoresOk, BlocksApart, Lock, WorkerOk, Walking, Canonical;
    assert H.Held(s.heap.live, a);
    var b :| b in s.heap.live && b.Has(a);
    assert b !in s.fixed;
    u :| HeldBy(s.workers, b, u);
  }

  /** No byte just below a free chunk is free. */
  lemma BelowChunk(cs: seq<Chunk>, i: nat, lo: nat, hi: nat)
    requires Canonical(cs, lo, hi) && i < |cs|
    ensures lo <= cs[i].addr < cs[i].End() <= hi && !Covers(cs, cs[i].addr - 1)
    ensures forall a: int | cs[i].Has(a) :: Covers(cs, a)
    ensures !Covers(cs, cs[i].End())
  {
    forall j | 0 <= j < |cs| ensures !cs[j].Has(cs[i].addr - 1) && !cs[j].Has(cs[i].End()) {
      assert cs[j].InRegion(lo, hi) && cs[i].InRegion(lo, hi);
      if j < i { assert cs[j].End() < cs[i].addr; }
      if i < j { assert cs[i].End() < cs[j].addr; }
    }
  }

  lemma ListCanonical(s: Sys)
    requires Inv(s)
    ensures H.Inv(s.heap) && Canonical(s.heap.chunks, s.heap.lo, s.heap.hi)
  {
    hide RamOk, StoresOk, BlocksApart, Lock, WorkerOk, Walking, Accounted;
  }

  lemma LiveNotFree(h: H.Heap, b: Chunk, a: int)
    requires H.Inv(h) && b in h.live && b.Has(a)
    ensures !Covers(h.chunks, a)
  {
    assert b.InRegion(h.lo, h.hi) && H.Held(h.live, a);
  }

  /** The chunk the walk settles on starts in place. */
  lemma GrantInPlace(s: Sys, c: Chunk, i: nat)
    requires Inv(s) && Fenced(s.fixed, c, s.heap.lo) && AllInPlace(s.workers, c)
    requires i < |s.heap.chunks| && s.heap.chunks[i].bytes >= SIZE
    ensures InPlace(s.heap.chunks[i].addr, c)
  {
    hide Walking, RamOk, StoresOk, BlocksApart, Lock, WorkerOk, Canonical, H.Inv, AllInPlace;
    var f, h := s.heap.chunks[i], s.heap;
    ListCanonical(s);
    BelowChunk(h.chunks, i, h.lo, h.hi);
    if f.addr < c.addr < f.addr + SIZE {
      var b :| b in s.fixed && b.Has(c.addr - 1);
      LiveNotFree(h, b, c.addr - 1);
    } else if c.addr < f.addr < c.End() {
      var u := TakenByWorker(s, c, f.addr - 1);
      var b := Chunk(s.workers[u].pc.Block(), SIZE);
      if b.Has(f.addr) { LiveNotFree(h, b, f.addr); }
      assert f.addr - c.addr == b.addr - c.addr + SIZE;
    }
  }

  // ---- somewhere to put one more block -------------------------------------------------

  /** Fewer blocks than places leave a place free. */
  lemma {:induction false} FreePlace(blocks: seq<nat>, base: nat, n: nat) returns (k: nat)
    requires |blocks| < n
    ensures k < n && base + k * SIZE !in blocks
    decreases n
  {
    k := n - 1;
    if base + k * SIZE in blocks {
      var i :| 0 <= i < |blocks| && blocks[i] == base + k * SIZE;
      var others := blocks[..i] + blocks[i + 1..];
      k := FreePlace(others, base, n - 1);
      assert forall j | 0 <= j < |blocks| && j != i :: blocks[j] == others[if j < i then j else j - 1];
    }
  }

  function Blocks(workers: seq<Worker>): (r: seq<nat>)
    ensures |r| == |workers| && forall u | 0 <= u < |workers| :: r[u] == workers[u].pc.Block()
  {
    seq(|workers|, u requires 0 <= u < |workers| => workers[u].pc.Block())
  }

  /** While the running worker holds nothing, some place of c is no worker's. */
  lemma PlaceFor(s: Sys, c: Chunk) returns (k: nat)
    requires s.current < |s.workers| && s.workers[s.current].pc.Block() == NULL
    requires c.bytes >= |s.workers| * SIZE && 0 < c.addr
    ensures k * SIZE + SIZE <= c.bytes
    ensures forall u | 0 <= u < |s.workers| :: s.workers[u].pc.Block() != c.addr + k * SIZE
  {
    var all, i := Blocks(s.workers), s.current;
    var others := all[..i] + all[i + 1..];
    k := FreePlace(others, c.addr, |s.workers|);
    forall u | 0 <= u < |s.workers| ensures s.workers[u].pc.Block() != c.addr + k * SIZE {
      if u != i { assert all[u] == others[if u < i then u else u - 1]; }
    }
  }

  lemma SamePlace(p: nat, base: nat, k: nat, a: nat)
    requires base <= p && (p - base) % SIZE == 0 && p <= a < p + SIZE
    requires base + k * SIZE <= a < base + k * SIZE + SIZE
    ensures p == base + k * SIZE
  {
    assert p - base == (p - base) / SIZE * SIZE;
  }

  /** Every byte of a place no worker has is free. */
  lemma PlaceFree(s: Sys, c: Chunk, k: nat, a: nat)
    requires Inv(s) && Fenced(s.fixed, c, s.heap.lo) && AllInPlace(s.workers, c) && c.End() <= s.heap.hi
    requires k * SIZE + SIZE <= c.bytes
    requires forall u | 0 <= u < |s.workers| :: s.workers[u].pc.Block() != c.addr + k * SIZE
    requires Chunk(c.addr + k * SIZE, SIZE).Has(a)
    ensures Covers(s.heap.chunks, a)
  {
    hide Inv, Fenced, AllInPlace, Covers;
    if !Covers(s.heap.chunks, a) {
      var u := TakenByWorker(s, c, a);
      SamePlace(s.workers[u].pc.Block(), c.addr, k, a);
    }
  }

  /** So there is a chunk to fit it, and mh_Free says so. */
  lemma AlwaysFits(s: Sys, c: Chunk)
    requires Running(s) && s.workers[s.current].pc.Block() == NULL
    requires c.bytes >= |s.workers| * SIZE && c.End() <= s.heap.hi
    requires Fenced(s.fixed, c, s.heap.lo) && AllInPlace(s.workers, c)
    ensures exists i | 0 <= i < |s.heap.chunks| :: s.heap.chunks[i].bytes >= SIZE
    ensures Sum(s.heap.chunks) >= SIZE
  {
    hide Walking, RamOk, StoresOk, BlocksApart, Lock, WorkerOk, Canonical, AllInPlace, Accounted, H.Inv;
    var cs, h := s.heap.chunks, s.heap;
    ListCanonical(s);
    var k := PlaceFor(s, c);
    var p := c.addr + k * SIZE;
    forall a: nat | Chunk(p, SIZE).Has(a) ensures Covers(cs, a) { PlaceFree(s, c, k, a); }
    assert Covers(cs, p);
    var i :| 0 <= i < |cs| && cs[i].Has(p);
    BelowChunk(cs, i, h.lo, h.hi);
    assert cs[i].End() >= p + SIZE;
    SumAt(cs, i);
  }

  // ---- every step ----------------------------------------------------------------------

  /** No statement but the last of Allocate's walk gives a worker a block, and one turned away
      is turned away by mh_Free or at the end of the list. */
  lemma StepBlocks(s: Sys)
    requires s.current < |s.workers| && Served(s.workers[s.current])
    ensures var w, s' := s.workers[s.current], Step(s);
            var w' := s'.workers[s.current];
            && s'.fixed == s.fixed && s'.heap.lo == s.heap.lo && s'.heap.hi == s.heap.hi
            && |s'.workers| == |s.workers| && s'.workers == s.workers[s.current := w']
            && (w'.pc.Block() in {NULL, w.pc.Block()} || (w.pc.AllocWalk? && w'.pc.Block() == Nat(w.pc.p2)))
            && (w'.pc.Block() != NULL && w.pc.AllocWalk? ==> w.pc.p2 != NULL && Peek(s.ram.mem, w.pc.p2 + WORD) >= SIZE)
            && (w.pc.AllocEnter? && s.ram.free >= SIZE ==> Served(w'))
            && (w.pc.AllocWalk? && w.pc.p2 != NULL ==> Served(w'))
            && (w.pc.AllocStores? && w.pc.p != NULL ==> Served(w'))
            && (!w.pc.AllocEnter? && !w.pc.AllocWalk? && !w.pc.AllocStores? ==> Served(w'))
  {
    hide Fit, Overlaps, GrantReads, ReleaseReads, Apply, Carve, FreedBlock, H.Step;
    StepKeepsRegion(s, Statement);
  }

  /** The walk never runs off the list, mh_Free is never too small, and what is handed out is in
      place. */
  lemma WalkServes(s: Sys, c: Chunk)
    requires Running(s) && RoomOk(s, c) && c.End() <= s.heap.hi
    ensures var pc := s.workers[s.current].pc;
            && (pc.AllocEnter? ==> s.ram.free >= SIZE)
            && (pc.AllocWalk? ==> pc.p2 != NULL)
            && (pc.AllocWalk? && Peek(s.ram.mem, pc.p2 + WORD) >= SIZE ==> InPlace(Nat(pc.p2), c))
            && (pc.AllocStores? ==> pc.p != NULL)
  {
    hide StoresOk, BlocksApart, Lock, Accounted, HeapOk, Linked, AllInPlace, Fenced;
    var w := s.workers[s.current];
    assert WorkerOk(w, s.heap.live, s.ram.mem);
    if w.pc.AllocEnter? || w.pc.AllocWalk? {
      AlwaysFits(s, c);
      DoneNothing(s.ram);
    }
    if w.pc.AllocWalk? && w.pc.i < |s.heap.chunks| {
      ChunksReal(s.heap, s.first);
      LinkAt(s.ram.mem, s.first, s.heap.chunks, w.pc.i + 1);
      if s.heap.chunks[w.pc.i].bytes >= SIZE { GrantInPlace(s, c, w.pc.i); }
    }
  }

  lemma StatementKeepsRoom(s: Sys, c: Chunk)
    requires Running(s) && RoomOk(s, c) && c.End() <= s.heap.hi
    ensures RoomOk(Step(s), c)
  {
    hide Inv, InPlace, Fenced, Step;
    StepBlocks(s);
    WalkServes(s, c);
  }

  lemma NextKeepsRoom(s: Sys, c: Chunk, a: Action)
    requires Inv(s) && RoomOk(s, c) && c.End() <= s.heap.hi
    ensures RoomOk(Next(s, a), c)
  {
    hide Inv, InPlace, Fenced, Step;
    if a == Statement && s.current < |s.workers| { StatementKeepsRoom(s, c); }
  }

  lemma {:induction false} RunKeepsRoom(s: Sys, actions: seq<Action>, c: Chunk)
    requires Inv(s) && RoomOk(s, c) && c.End() <= s.heap.hi
    ensures RoomOk(Run(s, actions), c)
    decreases |actions|
  {
    hide Inv, RoomOk, Next;
    if actions == [] {
    } else {
      NextKeepsInv(s, actions[0]);
      NextKeepsRoom(s, c, actions[0]);
      StepKeepsRegion(s, actions[0]);
      RunKeepsRoom(Next(s, actions[0]), actions[1..], c);
    }
  }

  /** A chunk of the post-spawn list is fenced in by what was handed out. */
  lemma SpawnedRoom(s: Sys, c: Chunk)
    requires Spawned(s) && c in s.heap.chunks && c.bytes >= |s.workers| * SIZE
    ensures RoomOk(s, c) && c.End() <= s.heap.hi
  {
    hide RamOk, Canonical, Linked, Covers;
    var i :| 0 <= i < |s.heap.chunks| && s.heap.chunks[i] == c;
    BelowChunk(s.heap.chunks, i, s.heap.lo, s.heap.hi);
    forall b, a: int | b in s.fixed && b.Has(a) ensures !c.Has(a) { LiveNotFree(s.heap, b, a); }
  }

  /** Whatever the timer schedule: if the list after spawning has one chunk that holds a block for
      every worker, no worker is ever turned away. Every round it has finished was then good, so
      good is never more than one behind ran. */
  lemma NoWorkerMisses(s: Sys, actions: seq<Action>, c: Chunk, u: nat)
    requires Spawned(s) && c in s.heap.chunks && c.bytes >= |s.workers| * SIZE
    requires u < |Run(s, actions).workers|
    ensures var w := Run(s, actions).workers[u]; w.missed == 0 && w.ran - 1 <= w.good <= w.ran
  {
    hide Inv, Next, Spawned;
    SpawnedInv(s);
    SpawnedRoom(s, c);
    RunKeepsRoom(s, actions, c);
    PatternNeverFails(s, actions, u);
  }

  // ---- such a start --------------------------------------------------------------------

  /** Four workers with distinct marks; the tasks' own memory in the lower half of a region of
      0x20000 bytes, the upper half one free chunk. */
  function Start(): Sys
  {
    var tasks, rest := Chunk(0x1_0000, 0x1_0000), Chunk(0x2_0000, 0x1_0000);
    Sys(H.Heap(0x1_0000, 0x3_0000, [rest], {tasks}), 0x1000,
        Ram(map[0x1000 := rest.addr, rest.addr := NULL, rest.addr + WORD := rest.bytes], rest.bytes), {tasks},
        seq(4, u => Worker(Pc.Start, 0x40 + u, 0, 0, 0)), 4, 0)
  }

  /** The theorems about the workers are of something: such a start exists, with room for all four. */
  lemma StartIsSpawned()
    ensures Spawned(Start()) && |Start().workers| == 4
    ensures exists c :: c in Start().heap.chunks && c.bytes >= |Start().workers| * SIZE
  {
    var s := Start();
    var tasks, rest := Chunk(0x1_0000, 0x1_0000), Chunk(0x2_0000, 0x1_0000);
    assert s.heap.chunks[0] == rest && rest in s.heap.chunks;
    StartHeap();
    DoneNothing(s.ram);
    CoversOne(rest, 0);
  }

  lemma StartHeap()
    ensures HeapOk(Start().heap, Start().first)
  {
    var h := Start().heap;
    var tasks, rest := Chunk(0x1_0000, 0x1_0000), Chunk(0x2_0000, 0x1_0000);
    forall a: int | h.lo <= a < h.hi ensures Covers(h.chunks, a) <==> !H.Held(h.live, a) {
      CoversOne(rest, a);
      assert tasks in h.live && (H.Held(h.live, a) <==> tasks.Has(a));
    }
  }
}
