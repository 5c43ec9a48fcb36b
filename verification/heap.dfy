/** Whole runs of the allocator: the free list together with the blocks handed out. */
module Heap {
  import opened Bits
  import opened FreeList

  datatype Heap = Heap(lo: nat, hi: nat, chunks: seq<Chunk>, live: set<Chunk>)

  /** One call by a client: allocate `size` bytes, or free a block it holds. */
  datatype Call = AllocCall(size: nat, reverse: bool) | FreeCall(block: Chunk)

  ghost predicate Held(live: set<Chunk>, a: int)
  {
    exists b | b in live :: b.Has(a)
  }

  /** The chunks cover exactly the region less the pairwise-disjoint live blocks. */
  ghost predicate Inv(h: Heap)
  {
    && Canonical(h.chunks, h.lo, h.hi)
    && (forall b | b in h.live :: b.InRegion(h.lo, h.hi))
    && (forall b, c, a: int | b in h.live && c in h.live && b.Has(a) && c.Has(a) :: b == c)
    && (forall a: int | h.lo <= a < h.hi :: Covers(h.chunks, a) <==> !Held(h.live, a))
  }

  function Init(lo: nat, hi: nat): Heap
    requires lo <= hi
  {
    Heap(lo, hi, [Chunk(lo, hi - lo)], {})
  }

  /** The block a request reserves: its start and the rounded size. */
  function Step(h: Heap, c: Call): Heap
  {
    match c
    case AllocCall(size, reverse) =>
      var n := RoundUp(size);
      if size == 0 then h else
      (match Alloc(h.chunks, n, reverse)
       case None => h
       case Some(g) =>
         h.(chunks := g.rest, live := if n == 0 then h.live else h.live + {Chunk(g.addr, n)}))
    case FreeCall(b) =>
      if b !in h.live then h else
      (match Release(h.chunks, b)
       case None => h
       case Some(cs) => h.(chunks := cs, live := h.live - {b}))
  }

  function Run(h: Heap, calls: seq<Call>): Heap
    decreases |calls|
  {
    if calls == [] then h else Run(Step(h, calls[0]), calls[1..])
  }

  ghost predicate Region(lo: nat, hi: nat)
  {
    lo < hi && lo % MEMCHUNK_TOTAL == 0 && hi % MEMCHUNK_TOTAL == 0
  }

  lemma InitInv(lo: nat, hi: nat)
    requires Region(lo, hi)
    ensures Inv(Init(lo, hi))
  {
    forall a: int | lo <= a < hi ensures Covers(Init(lo, hi).chunks, a) {
      CoversOne(Chunk(lo, hi - lo), a);
    }
  }

  lemma CoveredInRegion(cs: seq<Chunk>, lo: nat, hi: nat, a: int)
    requires Canonical(cs, lo, hi) && Covers(cs, a)
    ensures lo <= a < hi
  {
  }

  lemma StepAlloc(h: Heap, size: nat, reverse: bool)
    requires Inv(h) && size < WORD64
    ensures Inv(Step(h, AllocCall(size, reverse)))
  {
    var n := RoundUp(size);
    RoundUpFits(size);
    AllocBytes(h.chunks, n, reverse, h.lo, h.hi);
    var h' := Step(h, AllocCall(size, reverse));
    if size != 0 && Alloc(h.chunks, n, reverse).Some? && n > 0 {
      var g := Alloc(h.chunks, n, reverse).value;
      var b := Chunk(g.addr, n);
      var k: nat :| IsFit(h.chunks, n, reverse, k) && g.addr == h.chunks[k].addr;
      assert h.chunks[k].InRegion(h.lo, h.hi);
      LivePlus(h, b, h'.chunks);
    }
  }

  /** Free bytes may become a live block. */
  lemma LivePlus(h: Heap, b: Chunk, rest: seq<Chunk>)
    requires Inv(h) && b.InRegion(h.lo, h.hi) && Canonical(rest, h.lo, h.hi)
    requires forall a: int | b.Has(a) :: Covers(h.chunks, a)
    requires forall a: int :: Covers(rest, a) <==> Covers(h.chunks, a) && !b.Has(a)
    ensures Inv(h.(chunks := rest, live := h.live + {b}))
  {
    forall c, d, a: int | c in h.live + {b} && d in h.live + {b} && c.Has(a) && d.Has(a) ensures c == d {
      if c in h.live || d in h.live {
        assert Held(h.live, a);
      }
    }
    forall a: int | h.lo <= a < h.hi ensures Covers(rest, a) <==> !Held(h.live + {b}, a) {
      HeldPlus(h.live, b, a);
    }
  }

  lemma HeldPlus(live: set<Chunk>, b: Chunk, a: int)
    ensures Held(live + {b}, a) <==> Held(live, a) || b.Has(a)
  {
    if b.Has(a) { assert b in live + {b}; }
    if Held(live, a) {
      var c :| c in live && c.Has(a);
      assert c in live + {b};
    }
  }

  /** Freeing a live block never reports a double free. */
  lemma StepFree(h: Heap, b: Chunk)
    requires Inv(h) && b in h.live
    ensures Release(h.chunks, b).Some?
    ensures Inv(Step(h, FreeCall(b)))
  {
    ReleaseBytes(h.chunks, b, h.lo, h.hi);
    forall a: int | b.Has(a) ensures !Covers(h.chunks, a) {
      assert Held(h.live, a);
    }
    var h' := Step(h, FreeCall(b));
    forall a: int | h.lo <= a < h.hi ensures Covers(h'.chunks, a) <==> !Held(h'.live, a) {
      HeldPlus(h.live - {b}, b, a);
      assert h.live - {b} + {b} == h.live;
      assert b.Has(a) ==> forall c | c in h.live - {b} :: !c.Has(a);
    }
  }

  ghost predicate Sized(calls: seq<Call>)
  {
    forall c | c in calls && c.AllocCall? :: c.size < WORD64
  }

  /** After any history of calls the free list is canonical and covers exactly the region less
      the pairwise-disjoint live blocks. */
  lemma {:induction false} HistoryInvariant(h: Heap, calls: seq<Call>)
    requires Inv(h) && Sized(calls)
    ensures Inv(Run(h, calls))
    ensures Run(h, calls).lo == h.lo && Run(h, calls).hi == h.hi
    decreases |calls|
  {
    if calls == [] {
    } else {
      var c := calls[0];
      assert c in calls;
      match c {
        case AllocCall(size, reverse) => StepAlloc(h, size, reverse);
        case FreeCall(b) => if b in h.live { StepFree(h, b); }
      }
      assert forall d | d in calls[1..] :: d in calls;
      HistoryInvariant(Step(h, c), calls[1..]);
    }
  }

  /** The free list is a function of the set of live blocks alone. */
  lemma ListFromLive(h1: Heap, h2: Heap)
    requires Inv(h1) && Inv(h2)
    requires h1.lo == h2.lo && h1.hi == h2.hi && h1.live == h2.live
    ensures h1 == h2
  {
    forall a: int ensures Covers(h1.chunks, a) <==> Covers(h2.chunks, a) {
      if Covers(h1.chunks, a) { CoveredInRegion(h1.chunks, h1.lo, h1.hi, a); }
      if Covers(h2.chunks, a) { CoveredInRegion(h2.chunks, h2.lo, h2.hi, a); }
    }
    CanonicalUnique(h1.chunks, h2.chunks, h1.lo, h1.hi);
  }

  /** Any two histories over the same region that leave the same blocks live leave the same
      list, whatever was allocated and freed on the way and in whatever order; with none live
      it is the one initial chunk. */
  lemma HistoryIndependence(lo: nat, hi: nat, first: seq<Call>, second: seq<Call>)
    requires Region(lo, hi) && Sized(first) && Sized(second)
    requires Run(Init(lo, hi), first).live == Run(Init(lo, hi), second).live
    ensures Run(Init(lo, hi), first).chunks == Run(Init(lo, hi), second).chunks
    ensures Run(Init(lo, hi), first).live == {} ==> Run(Init(lo, hi), first).chunks == [Chunk(lo, hi - lo)]
  {
    InitInv(lo, hi);
    HistoryInvariant(Init(lo, hi), first);
    HistoryInvariant(Init(lo, hi), second);
    ListFromLive(Run(Init(lo, hi), first), Run(Init(lo, hi), second));
    if Run(Init(lo, hi), first).live == {} {
      ListFromLive(Run(Init(lo, hi), first), Init(lo, hi));
    }
  }

  function Frees(order: seq<Chunk>): seq<Call>
  {
    seq(|order|, i requires 0 <= i < |order| => FreeCall(order[i]))
  }

  ghost function Members(order: seq<Chunk>): set<Chunk>
  {
    set b | b in order
  }

  /** Freeing a sequence of blocks removes exactly those that were live. */
  lemma {:induction false} FreesLive(h: Heap, order: seq<Chunk>)
    requires Inv(h)
    ensures Run(h, Frees(order)).live == h.live - Members(order)
    decreases |order|
  {
    if order == [] {
      assert Frees(order) == [];
    } else {
      var b := order[0];
      if b in h.live { StepFree(h, b); }
      assert Frees(order)[1..] == Frees(order[1..]);
      FreesLive(Step(h, FreeCall(b)), order[1..]);
      assert Members(order) == {b} + Members(order[1..]);
    }
  }

  /** Blocks freed in any order leave the same list, and freeing everything restores the single
      initial chunk. */
  lemma FreeInAnyOrder(h: Heap, first: seq<Chunk>, second: seq<Chunk>)
    requires Inv(h) && Region(h.lo, h.hi)
    requires Members(first) == Members(second)
    ensures Run(h, Frees(first)) == Run(h, Frees(second))
    ensures h.live <= Members(first) ==> Run(h, Frees(first)).chunks == [Chunk(h.lo, h.hi - h.lo)]
  {
    hide Run, Step, Inv;
    HistoryInvariant(h, Frees(first));
    HistoryInvariant(h, Frees(second));
    FreesLive(h, first);
    FreesLive(h, second);
    ListFromLive(Run(h, Frees(first)), Run(h, Frees(second)));
    if h.live <= Members(first) {
      InitInv(h.lo, h.hi);
      ListFromLive(Run(h, Frees(first)), Init(h.lo, h.hi));
    }
  }

  /** A request the 64-bit rounding cannot hold. */
  const WRAPPING: nat := WORD64 - 1

  /** A granted request reserves at least what was asked for, out of free bytes only, exactly
      when the rounding did not wrap. */
  lemma GrantHoldsRequest(h: Heap, size: nat, reverse: bool)
    requires Inv(h) && 0 < size < WORD64
    requires Alloc(h.chunks, RoundUp(size), reverse).Some?
    ensures RoundUp(size) >= size <==> size <= WORD64 - 16
    ensures Step(h, AllocCall(size, reverse)).live != h.live <==> size <= WORD64 - 16
  {
    RoundUpFits(size);
    var n := RoundUp(size);
    AllocBytes(h.chunks, n, reverse, h.lo, h.hi);
    if n > 0 {
      var b := Chunk(Alloc(h.chunks, n, reverse).value.addr, n);
      assert b.Has(b.addr);
      var k: nat :| IsFit(h.chunks, n, reverse, k) && b.addr == h.chunks[k].addr;
      assert h.chunks[k].InRegion(h.lo, h.hi);
      assert Covers(h.chunks, b.addr) && !Held(h.live, b.addr);
      assert b !in h.live;
      assert b in Step(h, AllocCall(size, reverse)).live;
    }
  }

  /** In the last 15 sizes the request is granted although nothing is reserved: any heap with a
      free chunk hands out the start of a chunk that stays on the free list. */
  lemma WrappedRequestReservesNothing(h: Heap, reverse: bool)
    requires Inv(h) && h.chunks != []
    ensures Alloc(h.chunks, RoundUp(WRAPPING), reverse).Some?
    ensures var g := Alloc(h.chunks, RoundUp(WRAPPING), reverse).value;
            g.rest == h.chunks && Covers(g.rest, g.addr)
    ensures Step(h, AllocCall(WRAPPING, reverse)) == h
  {
    RoundUpFits(WRAPPING);
    AllocBytes(h.chunks, 0, reverse, h.lo, h.hi);
    assert h.chunks[0].bytes >= 0;
    var g := Alloc(h.chunks, 0, reverse).value;
    var k: nat :| IsFit(h.chunks, 0, reverse, k) && g.addr == h.chunks[k].addr;
    assert h.chunks[k].Has(g.addr);
    CanonicalUnique(g.rest, h.chunks, h.lo, h.hi);
  }
}
