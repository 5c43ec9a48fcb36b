/** The exec free list as a value: an address-ordered sequence of chunks, and the set of
    free bytes it stands for. */
module FreeList {
  import opened Bits
  import opened Types

  const MEMCHUNK_TOTAL: nat := 16

  /** A run of bytes: a MemChunk of the free list, or a block handed out. */
  datatype Chunk = Chunk(addr: nat, bytes: nat)
  {
    function End(): nat { addr + bytes }

    predicate Has(a: int) { addr <= a < addr + bytes }

    predicate InRegion(lo: nat, hi: nat) {
      lo <= addr && addr + bytes <= hi && bytes > 0 && addr % MEMCHUNK_TOTAL == 0 && bytes % MEMCHUNK_TOTAL == 0
    }
  }

  /** Address-ordered, aligned, in bounds, non-empty, and no two chunks touch. */
  ghost predicate Canonical(cs: seq<Chunk>, lo: nat, hi: nat)
  {
    && (forall i | 0 <= i < |cs| :: cs[i].InRegion(lo, hi))
    && (forall i, j | 0 <= i < j < |cs| :: cs[i].End() < cs[j].addr)
  }

  /** Byte `a` is free. */
  ghost predicate Covers(cs: seq<Chunk>, a: int)
  {
    exists i | 0 <= i < |cs| :: cs[i].Has(a)
  }

  function Sum(cs: seq<Chunk>): nat
  {
    if |cs| == 0 then 0 else cs[0].bytes + Sum(cs[1..])
  }

  // ---- sizes in 64-bit arithmetic ------------------------------------------------------

  /** ROUNDUP(x, 16) on a 64-bit word: (x + 15) & ~15, which wraps for the last 15 values. */
  function RoundUp(x: nat): (r: nat)
  {
    var y := (x + MEMCHUNK_TOTAL - 1) % WORD64;
    y - And(y, MEMCHUNK_TOTAL - 1)
  }

  /** addr & ~15 */
  function RoundDown(x: nat): (r: nat)
  {
    x - And(x, MEMCHUNK_TOTAL - 1)
  }

  lemma Mask15(x: nat)
    ensures And(x, 15) == x % 16
  {
    assert Pow2(4) == 16;
    MaskIsMod(x, 4);
  }

  /** The rounded size is the least multiple of 16 holding the request, exactly when the sum did
      not wrap; otherwise it is 0. */
  lemma RoundUpFits(x: nat)
    requires x < WORD64
    ensures RoundUp(x) % 16 == 0 && RoundUp(x) < WORD64
    ensures RoundUp(x) >= x <==> x <= WORD64 - 16
    ensures x <= WORD64 - 16 ==> RoundUp(x) < x + 16
    ensures x > WORD64 - 16 ==> RoundUp(x) == 0
  {
    hide And;
    Mask15((x + 15) % WORD64);
  }

  lemma RoundDownFits(x: nat)
    ensures RoundDown(x) % 16 == 0 && 0 <= RoundDown(x) <= x < RoundDown(x) + 16
    ensures x % 16 == 0 ==> RoundDown(x) == x
  {
    Mask15(x);
  }

  // ---- allocation ----------------------------------------------------------------------

  /** Chunk `k` is the one the walk settles on: the first that holds n bytes, or the last. */
  ghost predicate IsFit(cs: seq<Chunk>, n: nat, reverse: bool, k: nat)
  {
    && k < |cs| && cs[k].bytes >= n
    && (!reverse ==> forall j | 0 <= j < k :: cs[j].bytes < n)
    && (reverse ==> forall j | k < j < |cs| :: cs[j].bytes < n)
  }

  function Fit(cs: seq<Chunk>, n: nat, reverse: bool): (r: Option<nat>)
    ensures r.Some? ==> IsFit(cs, n, reverse, r.value)
    ensures r.None? <==> forall j | 0 <= j < |cs| :: cs[j].bytes < n
  {
    if |cs| == 0 then None
    else if reverse then
      if cs[|cs| - 1].bytes >= n then Some(|cs| - 1) else Fit(cs[..|cs| - 1], n, reverse)
    else
      if cs[0].bytes >= n then Some(0) else
      match Fit(cs[1..], n, reverse)
      case None => assert forall j | 1 <= j < |cs| :: cs[j] == cs[1..][j - 1]; None
      case Some(k) => Some(k + 1)
  }

  lemma FitUnique(cs: seq<Chunk>, n: nat, reverse: bool, k: nat)
    requires IsFit(cs, n, reverse, k)
    ensures Fit(cs, n, reverse) == Some(k)
  {
    assert Fit(cs, n, reverse).Some?;
    assert cs[Fit(cs, n, reverse).value].bytes >= n;
  }

  /** Take n bytes off the front of chunk k, unlinking it when nothing is left. */
  function Carve(cs: seq<Chunk>, k: nat, n: nat): seq<Chunk>
    requires k < |cs| && n <= cs[k].bytes
  {
    if cs[k].bytes == n then cs[..k] + cs[k + 1..]
    else cs[k := Chunk(cs[k].addr + n, cs[k].bytes - n)]
  }

  datatype Grant = Grant(addr: nat, rest: seq<Chunk>)

  function Alloc(cs: seq<Chunk>, n: nat, reverse: bool): Option<Grant>
  {
    match Fit(cs, n, reverse)
    case None => None
    case Some(k) => Some(Grant(cs[k].addr, Carve(cs, k, n)))
  }

  lemma SumSplit(a: seq<Chunk>, b: seq<Chunk>)
    ensures Sum(a + b) == Sum(a) + Sum(b)
  {
    if a == [] {
      assert a + b == b;
    } else {
      assert (a + b)[1..] == a[1..] + b;
      SumSplit(a[1..], b);
    }
  }

  lemma SumAt(cs: seq<Chunk>, k: nat)
    requires k < |cs|
    ensures cs[k].bytes <= Sum(cs)
  {
    assert cs == cs[..k] + cs[k..];
    SumSplit(cs[..k], cs[k..]);
  }

  lemma CoversSplit(a: seq<Chunk>, b: seq<Chunk>, x: int)
    ensures Covers(a + b, x) <==> Covers(a, x) || Covers(b, x)
  {
    if Covers(a, x) {
      var i :| 0 <= i < |a| && a[i].Has(x);
      assert (a + b)[i].Has(x);
    }
    if Covers(b, x) {
      var i :| 0 <= i < |b| && b[i].Has(x);
      assert (a + b)[|a| + i].Has(x);
    }
    if Covers(a + b, x) {
      var i :| 0 <= i < |a + b| && (a + b)[i].Has(x);
      assert if i < |a| then a[i].Has(x) else b[i - |a|].Has(x);
    }
  }

  /** Replace chunks l..r by the chunks mid. */
  function Splice(cs: seq<Chunk>, l: nat, mid: seq<Chunk>, r: nat): seq<Chunk>
    requires l <= r <= |cs|
  {
    cs[..l] + (mid + cs[r..])
  }

  lemma SpliceSum(cs: seq<Chunk>, l: nat, mid: seq<Chunk>, r: nat)
    requires l <= r <= |cs|
    ensures Sum(Splice(cs, l, mid, r)) == Sum(cs) - Sum(cs[l..r]) + Sum(mid)
  {
    assert cs == cs[..l] + (cs[l..r] + cs[r..]);
    SumSplit(cs[..l], cs[l..r] + cs[r..]);
    SumSplit(cs[l..r], cs[r..]);
    SumSplit(cs[..l], mid + cs[r..]);
    SumSplit(mid, cs[r..]);
  }

  lemma SpliceCovers(cs: seq<Chunk>, l: nat, mid: seq<Chunk>, r: nat, x: int)
    requires l <= r <= |cs|
    ensures Covers(cs, x) <==> Covers(cs[..l], x) || Covers(cs[l..r], x) || Covers(cs[r..], x)
    ensures Covers(Splice(cs, l, mid, r), x) <==> Covers(cs[..l], x) || Covers(mid, x) || Covers(cs[r..], x)
  {
    assert cs == cs[..l] + (cs[l..r] + cs[r..]);
    CoversSplit(cs[..l], cs[l..r] + cs[r..], x);
    CoversSplit(cs[l..r], cs[r..], x);
    CoversSplit(cs[..l], mid + cs[r..], x);
    CoversSplit(mid, cs[r..], x);
  }

  lemma CanonicalJoin(a: seq<Chunk>, b: seq<Chunk>, lo: nat, hi: nat)
    requires Canonical(a, lo, hi) && Canonical(b, lo, hi)
    requires a != [] && b != [] ==> a[|a| - 1].End() < b[0].addr
    ensures Canonical(a + b, lo, hi)
  {
    forall i, j | 0 <= i < j < |a + b| ensures (a + b)[i].End() < (a + b)[j].addr {
      if i < |a| <= j {
        assert a[i].End() <= a[|a| - 1].End() && b[0].addr <= b[j - |a|].addr;
      }
    }
  }

  lemma CanonicalPart(cs: seq<Chunk>, l: nat, r: nat, lo: nat, hi: nat)
    requires Canonical(cs, lo, hi) && l <= r <= |cs|
    ensures Canonical(cs[l..r], lo, hi)
  {
  }

  /** A chunk spliced in keeps the canonical form when it is clear of its neighbours. */
  lemma SpliceCanonical(cs: seq<Chunk>, l: nat, mid: seq<Chunk>, r: nat, lo: nat, hi: nat)
    requires Canonical(cs, lo, hi) && l <= r <= |cs| && Canonical(mid, lo, hi)
    requires mid != [] && l > 0 ==> cs[l - 1].End() < mid[0].addr
    requires mid != [] && r < |cs| ==> mid[|mid| - 1].End() < cs[r].addr
    requires mid == [] ==> l < r
    ensures Canonical(Splice(cs, l, mid, r), lo, hi)
  {
    CanonicalPart(cs, 0, l, lo, hi);
    CanonicalPart(cs, r, |cs|, lo, hi);
    assert cs[0..l] == cs[..l] && cs[r..|cs|] == cs[r..];
    CanonicalJoin(mid, cs[r..], lo, hi);
    CanonicalJoin(cs[..l], mid + cs[r..], lo, hi);
  }

  lemma CarveIsSplice(cs: seq<Chunk>, k: nat, n: nat)
    requires k < |cs| && n <= cs[k].bytes
    ensures cs[k..k + 1] == [cs[k]]
    ensures Carve(cs, k, n) == Splice(cs, k, Remainder(cs[k], n), k + 1)
  {
  }

  function Remainder(c: Chunk, n: nat): seq<Chunk>
    requires n <= c.bytes
  {
    if c.bytes == n then [] else [Chunk(c.addr + n, c.bytes - n)]
  }

  lemma CoversOne(c: Chunk, a: int)
    ensures Covers([c], a) <==> c.Has(a)
    ensures Sum([c]) == c.bytes
  {
    assert [c][0] == c;
  }

  lemma Disjoint(cs: seq<Chunk>, k: nat, a: int, lo: nat, hi: nat)
    requires Canonical(cs, lo, hi) && k < |cs| && cs[k].Has(a)
    ensures !Covers(cs[..k], a) && !Covers(cs[k + 1..], a)
  {
    forall i | 0 <= i < k ensures !cs[..k][i].Has(a) { assert cs[i].End() < cs[k].addr; }
    var rest := cs[k + 1..];
    forall i | 0 <= i < |rest| ensures !rest[i].Has(a) {
      assert rest[i] == cs[k + 1 + i];
    }
  }

  lemma RemainderCanonical(cs: seq<Chunk>, k: nat, n: nat, lo: nat, hi: nat)
    requires Canonical(cs, lo, hi) && k < |cs| && n <= cs[k].bytes && n % 16 == 0
    ensures Canonical(Carve(cs, k, n), lo, hi)
  {
    hide Canonical, Carve, Remainder;
    CarveIsSplice(cs, k, n);
    Neighbours(cs, k, lo, hi);
    RemainderFits(cs[k], n, lo, hi);
    SpliceCanonical(cs, k, Remainder(cs[k], n), k + 1, lo, hi);
  }

  lemma Neighbours(cs: seq<Chunk>, k: nat, lo: nat, hi: nat)
    requires Canonical(cs, lo, hi) && k < |cs|
    ensures cs[k].InRegion(lo, hi)
    ensures k > 0 ==> cs[k - 1].End() < cs[k].addr
    ensures k + 1 < |cs| ==> cs[k].End() < cs[k + 1].addr
  {
  }

  lemma RemainderFits(c: Chunk, n: nat, lo: nat, hi: nat)
    requires c.InRegion(lo, hi) && n <= c.bytes && n % 16 == 0
    ensures var mid := Remainder(c, n);
            Canonical(mid, lo, hi) && |mid| <= 1 && (mid != [] ==> mid[0].addr >= c.addr && mid[0].End() == c.End())
  {
  }

  /** Carving keeps the canonical form and removes exactly the granted bytes. */
  lemma CarveBytes(cs: seq<Chunk>, k: nat, n: nat, lo: nat, hi: nat)
    requires Canonical(cs, lo, hi) && k < |cs| && n <= cs[k].bytes && n % 16 == 0
    ensures Canonical(Carve(cs, k, n), lo, hi)
    ensures forall a: int :: Covers(Carve(cs, k, n), a) <==> Covers(cs, a) && !Chunk(cs[k].addr, n).Has(a)
    ensures Sum(Carve(cs, k, n)) == Sum(cs) - n
  {
    var mid := Remainder(cs[k], n);
    CarveIsSplice(cs, k, n);
    SpliceSum(cs, k, mid, k + 1);
    CoversOne(cs[k], 0);
    if mid != [] { CoversOne(mid[0], 0); }
    RemainderCanonical(cs, k, n, lo, hi);
    forall a: int ensures Covers(Carve(cs, k, n), a) <==> Covers(cs, a) && !Chunk(cs[k].addr, n).Has(a) {
      CarveByte(cs, k, n, lo, hi, a);
    }
  }

  lemma CarveByte(cs: seq<Chunk>, k: nat, n: nat, lo: nat, hi: nat, a: int)
    requires Canonical(cs, lo, hi) && k < |cs| && n <= cs[k].bytes
    ensures Covers(Carve(cs, k, n), a) <==> Covers(cs, a) && !Chunk(cs[k].addr, n).Has(a)
  {
    var mid := Remainder(cs[k], n);
    CarveIsSplice(cs, k, n);
    SpliceCovers(cs, k, mid, k + 1, a);
    CoversOne(cs[k], a);
    if mid != [] { CoversOne(mid[0], a); }
    if cs[k].Has(a) { Disjoint(cs, k, a, lo, hi); }
  }

  /** Allocation fails exactly when no chunk holds the bytes; otherwise it hands out the start
      of the lowest such chunk (the highest when searching in reverse), and the bytes that stay
      free are the old ones less the block. */
  lemma AllocBytes(cs: seq<Chunk>, n: nat, reverse: bool, lo: nat, hi: nat)
    requires Canonical(cs, lo, hi) && n % 16 == 0
    ensures Alloc(cs, n, reverse).None? <==> forall j | 0 <= j < |cs| :: cs[j].bytes < n
    ensures Alloc(cs, n, reverse).Some? ==>
              var g := Alloc(cs, n, reverse).value;
              && (exists k: nat :: IsFit(cs, n, reverse, k) && g.addr == cs[k].addr)
              && Canonical(g.rest, lo, hi)
              && Sum(g.rest) == Sum(cs) - n
              && (forall a: int :: Covers(g.rest, a) <==> Covers(cs, a) && !Chunk(g.addr, n).Has(a))
              && (forall a: int | Chunk(g.addr, n).Has(a) :: Covers(cs, a))
  {
    match Fit(cs, n, reverse)
    case None =>
    case Some(k) =>
      CarveBytes(cs, k, n, lo, hi);
      assert IsFit(cs, n, reverse, k);
      forall a: int | Chunk(cs[k].addr, n).Has(a) ensures Covers(cs, a) {
        assert cs[k].Has(a);
      }
  }

  // ---- release -------------------------------------------------------------------------

  /** Where the walk stops: the first chunk at or above b. */
  function Position(cs: seq<Chunk>, b: nat): (i: nat)
    ensures i <= |cs|
    ensures forall j | 0 <= j < i :: cs[j].addr < b
    ensures i < |cs| ==> cs[i].addr >= b
  {
    if |cs| == 0 || cs[0].addr >= b then 0 else 1 + Position(cs[1..], b)
  }

  predicate Overlaps(cs: seq<Chunk>, b: Chunk)
  {
    var i := Position(cs, b.addr);
    (i < |cs| && b.End() > cs[i].addr) || (i > 0 && cs[i - 1].End() > b.addr)
  }

  function MergeLeft(cs: seq<Chunk>, b: Chunk): (l: nat)
    ensures l <= Position(cs, b.addr) <= l + 1
  {
    var i := Position(cs, b.addr);
    if i > 0 && cs[i - 1].End() == b.addr then i - 1 else i
  }

  function MergeRight(cs: seq<Chunk>, b: Chunk): (r: nat)
    ensures Position(cs, b.addr) <= r <= |cs|
  {
    var i := Position(cs, b.addr);
    if i < |cs| && cs[i].addr == b.End() then i + 1 else i
  }

  /** The chunk the block grows into once its free neighbours are merged in. */
  function Merged(cs: seq<Chunk>, b: Chunk): Chunk
    requires !Overlaps(cs, b)
  {
    var i := Position(cs, b.addr);
    var start := if MergeLeft(cs, b) < i then cs[i - 1].addr else b.addr;
    var end := if MergeRight(cs, b) > i then cs[i].End() else b.End();
    Chunk(start, end - start)
  }

  function Release(cs: seq<Chunk>, b: Chunk): Option<seq<Chunk>>
  {
    if Overlaps(cs, b) then None
    else Some(Splice(cs, MergeLeft(cs, b), [Merged(cs, b)], MergeRight(cs, b)))
  }

  /** The two comparisons against the neighbours find every overlap, and nothing else. */
  lemma OverlapsIsIntersection(cs: seq<Chunk>, b: Chunk, lo: nat, hi: nat)
    requires Canonical(cs, lo, hi) && b.bytes > 0
    ensures Overlaps(cs, b) <==> exists a :: b.Has(a) && Covers(cs, a)
  {
    hide Canonical, Overlaps, Covers;
    if Overlaps(cs, b) {
      NoneEmpty(cs, lo, hi);
      OverlapWitness(cs, b);
    }
    if a :| b.Has(a) && Covers(cs, a) { SharedByteOverlaps(cs, b, lo, hi, a); }
  }

  lemma NoneEmpty(cs: seq<Chunk>, lo: nat, hi: nat)
    requires Canonical(cs, lo, hi)
    ensures forall i | 0 <= i < |cs| :: cs[i].bytes > 0
  {
  }

  lemma OverlapWitness(cs: seq<Chunk>, b: Chunk)
    requires b.bytes > 0 && Overlaps(cs, b) && forall i | 0 <= i < |cs| :: cs[i].bytes > 0
    ensures exists a :: b.Has(a) && Covers(cs, a)
  {
    var i := Position(cs, b.addr);
    if i > 0 && cs[i - 1].End() > b.addr {
      assert cs[i - 1].Has(b.addr) && b.Has(b.addr);
    } else {
      assert cs[i].Has(cs[i].addr) && b.Has(cs[i].addr);
    }
  }

  lemma SharedByteOverlaps(cs: seq<Chunk>, b: Chunk, lo: nat, hi: nat, a: int)
    requires Canonical(cs, lo, hi) && b.Has(a) && Covers(cs, a)
    ensures Overlaps(cs, b)
  {
    var i := Position(cs, b.addr);
    var j :| 0 <= j < |cs| && cs[j].Has(a);
    if j < i {
      assert cs[j].End() <= cs[i - 1].End();
    } else {
      assert cs[i].addr <= cs[j].addr;
    }
  }

  /** Releasing keeps the canonical form and adds exactly the block's bytes. */
  lemma ReleaseBytes(cs: seq<Chunk>, b: Chunk, lo: nat, hi: nat)
    requires Canonical(cs, lo, hi) && b.InRegion(lo, hi)
    ensures Release(cs, b).None? <==> exists a :: b.Has(a) && Covers(cs, a)
    ensures Release(cs, b).Some? ==>
              var cs' := Release(cs, b).value;
              && Canonical(cs', lo, hi)
              && Sum(cs') == Sum(cs) + b.bytes
              && (forall a: int :: Covers(cs', a) <==> Covers(cs, a) || b.Has(a))
  {
    OverlapsIsIntersection(cs, b, lo, hi);
    if !Overlaps(cs, b) {
      var l, r, m := MergeLeft(cs, b), MergeRight(cs, b), Merged(cs, b);
      MergedRange(cs, b, lo, hi);
      SpliceSum(cs, l, [m], r);
      SpliceCanonical(cs, l, [m], r, lo, hi);
      forall a: int ensures Covers(Release(cs, b).value, a) <==> Covers(cs, a) || b.Has(a) {
        MergedShape(cs, b, lo, hi, a);
        SpliceCovers(cs, l, [m], r, a);
        CoversOne(m, a);
      }
    }
  }

  /** The merged chunk lies in the region, aligned, and is clear of the chunks that stay. */
  lemma MergedRange(cs: seq<Chunk>, b: Chunk, lo: nat, hi: nat)
    requires Canonical(cs, lo, hi) && b.InRegion(lo, hi) && !Overlaps(cs, b)
    ensures MergeLeft(cs, b) <= MergeRight(cs, b)
    ensures Merged(cs, b).InRegion(lo, hi)
    ensures MergeLeft(cs, b) > 0 ==> cs[MergeLeft(cs, b) - 1].End() < Merged(cs, b).addr
    ensures MergeRight(cs, b) < |cs| ==> Merged(cs, b).End() < cs[MergeRight(cs, b)].addr
    ensures Merged(cs, b).bytes == b.bytes + Sum(cs[MergeLeft(cs, b)..MergeRight(cs, b)])
  {
    MergedShape(cs, b, lo, hi, b.addr);
    MergedInRegion(cs, b, lo, hi);
  }

  lemma AlignedLe(x: nat, y: nat)
    requires x % 16 == 0 && y % 16 == 0 && x < y + 16
    ensures x <= y
  {
  }

  lemma AlignedSum(x: nat, y: nat)
    requires x % 16 == 0 && y % 16 == 0
    ensures (x + y) % 16 == 0
  {
  }

  lemma MergedInRegion(cs: seq<Chunk>, b: Chunk, lo: nat, hi: nat)
    requires Canonical(cs, lo, hi) && b.InRegion(lo, hi) && !Overlaps(cs, b)
    ensures Merged(cs, b).InRegion(lo, hi)
  {
    var i, m := Position(cs, b.addr), Merged(cs, b);
    var left := if MergeLeft(cs, b) < i then cs[i - 1].bytes else 0;
    var right := if MergeRight(cs, b) > i then cs[i].bytes else 0;
    assert m.bytes == left + b.bytes + right;
    AlignedSum(left, b.bytes);
    AlignedSum(left + b.bytes, right);
  }

  /** The merged chunk is the block plus the neighbours it replaces. */
  lemma MergedShape(cs: seq<Chunk>, b: Chunk, lo: nat, hi: nat, a: int)
    requires Canonical(cs, lo, hi) && b.InRegion(lo, hi) && !Overlaps(cs, b)
    ensures MergeLeft(cs, b) <= MergeRight(cs, b)
    ensures var gone := cs[MergeLeft(cs, b)..MergeRight(cs, b)];
            && Merged(cs, b).bytes == b.bytes + Sum(gone)
            && (Merged(cs, b).Has(a) <==> b.Has(a) || Covers(gone, a))
  {
    var i, l, r := Position(cs, b.addr), MergeLeft(cs, b), MergeRight(cs, b);
    var gone := cs[l..r];
    if l < i && i < r {
      assert gone == [cs[i - 1]] + [cs[i]];
      SumSplit([cs[i - 1]], [cs[i]]);
      CoversSplit([cs[i - 1]], [cs[i]], a);
      CoversOne(cs[i - 1], a);
      CoversOne(cs[i], a);
    } else if l < r {
      var k := if l < i then i - 1 else i;
      assert gone == [cs[k]];
      CoversOne(cs[k], a);
    } else {
      assert gone == [];
    }
  }

  // ---- canonical form ------------------------------------------------------------------

  lemma TailCovers(cs: seq<Chunk>, lo: nat, hi: nat, a: int)
    requires Canonical(cs, lo, hi) && cs != []
    ensures Covers(cs[1..], a) <==> Covers(cs, a) && a > cs[0].End()
    ensures !Covers(cs, cs[0].End())
  {
    if Covers(cs[1..], a) {
      var i :| 0 <= i < |cs| - 1 && cs[1..][i].Has(a);
      assert cs[i + 1].Has(a);
    }
    if Covers(cs, a) && a > cs[0].End() {
      var i :| 0 <= i < |cs| && cs[i].Has(a);
      assert cs[1..][i - 1].Has(a);
    }
  }

  lemma FirstCovered(cs: seq<Chunk>, lo: nat, hi: nat, a: int)
    requires Canonical(cs, lo, hi) && Covers(cs, a)
    ensures cs != [] && cs[0].addr <= a
  {
    var i :| 0 <= i < |cs| && cs[i].Has(a);
    if i > 0 { assert cs[0].End() < cs[i].addr; }
  }

  /** A canonical list is determined by the set of bytes it covers. */
  lemma {:induction false} CanonicalUnique(c1: seq<Chunk>, c2: seq<Chunk>, lo: nat, hi: nat)
    requires Canonical(c1, lo, hi) && Canonical(c2, lo, hi)
    requires forall a: int :: Covers(c1, a) <==> Covers(c2, a)
    ensures c1 == c2
  {
    if c1 == [] {
      if c2 != [] { assert c2[0].Has(c2[0].addr); assert Covers(c2, c2[0].addr); }
    } else {
      assert c1[0].Has(c1[0].addr);
      assert Covers(c1, c1[0].addr);
      FirstCovered(c2, lo, hi, c1[0].addr);
      assert c2[0].Has(c2[0].addr);
      assert Covers(c2, c2[0].addr);
      FirstCovered(c1, lo, hi, c2[0].addr);
      TailCovers(c1, lo, hi, c1[0].End());
      TailCovers(c2, lo, hi, c2[0].End());
      assert !Covers(c2, c1[0].End()) && !Covers(c1, c2[0].End());
      assert !c2[0].Has(c1[0].End()) && !c1[0].Has(c2[0].End());
      forall a: int ensures Covers(c1[1..], a) <==> Covers(c2[1..], a) {
        TailCovers(c1, lo, hi, a);
        TailCovers(c2, lo, hi, a);
      }
      CanonicalUnique(c1[1..], c2[1..], lo, hi);
    }
  }

  /** Freeing a block just handed out restores the exact previous list. */
  lemma ReleaseUndoesAlloc(cs: seq<Chunk>, n: nat, reverse: bool, lo: nat, hi: nat)
    requires Canonical(cs, lo, hi) && n % 16 == 0 && n > 0
    requires Alloc(cs, n, reverse).Some?
    ensures var g := Alloc(cs, n, reverse).value; Release(g.rest, Chunk(g.addr, n)) == Some(cs)
  {
    AllocBytes(cs, n, reverse, lo, hi);
    var g := Alloc(cs, n, reverse).value;
    var b := Chunk(g.addr, n);
    ReleaseBytes(g.rest, b, lo, hi);
    assert Release(g.rest, b).Some?;
    var cs' := Release(g.rest, b).value;
    CanonicalUnique(cs', cs, lo, hi);
  }
}
