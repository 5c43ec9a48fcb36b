/** exec's Allocate and Deallocate, rewriting a linked free list in place. */
module MemHeaders {
  import opened Bits
  import opened FreeList
  import opened Types

  const NULL: nat := 0
  const WORD: nat := 8          // mc_Next at offset 0, mc_Bytes at offset 8
  const TOP: nat := WORD64 - MEMCHUNK_TOTAL   // no chunk ends above, so that no end wraps to 0

  /** 64-bit words by address; a word never written reads as 0. */
  type Memory = map<int, int>

  function Peek(mem: Memory, a: int): int
  {
    if a in mem then mem[a] else 0
  }

  /** The neighbour comparisons, and what they say about the chunk the block grows into. */
  lemma MergeCases(cs: seq<Chunk>, b: Chunk)
    ensures var i := Position(cs, b.addr);
            && i <= |cs|
            && (Overlaps(cs, b) <==> (i < |cs| && b.End() > cs[i].addr) || (i > 0 && cs[i - 1].End() > b.addr))
            && MergeLeft(cs, b) == (if i > 0 && cs[i - 1].End() == b.addr then i - 1 else i)
            && MergeRight(cs, b) == (if i < |cs| && cs[i].addr == b.End() then i + 1 else i)
            && (!Overlaps(cs, b) ==>
                  && Merged(cs, b).addr == (if MergeLeft(cs, b) < i then cs[i - 1].addr else b.addr)
                  && Merged(cs, b).End() == (if MergeRight(cs, b) > i then cs[i].End() else b.End()))
  {
  }

  lemma ReleasedIs(mem: Memory, first: nat, cs: seq<Chunk>, b: Chunk)
    requires !Overlaps(cs, b)
    ensures var i, m := Position(cs, b.addr), Merged(cs, b);
            var linked := if MergeLeft(cs, b) < i then mem else mem[Before(first, cs, i) := b.addr];
            Released(mem, first, cs, b) == linked[m.addr := At(cs, MergeRight(cs, b))][m.addr + WORD := m.bytes]
  {
    hide Overlaps, Merged, MergeLeft, MergeRight, Position, Before, At;
  }

  /** The header field lies outside the chunk. */
  predicate OffField(first: nat, c: Chunk)
  {
    0 < first && (first + WORD <= c.addr || c.End() <= first)
  }

  ghost predicate Apart(first: nat, cs: seq<Chunk>)
  {
    0 < first && forall i | 0 <= i < |cs| :: OffField(first, cs[i])
  }

  lemma OutsideIsApart(first: nat, cs: seq<Chunk>, lo: nat, hi: nat)
    requires Canonical(cs, lo, hi) && Outside(first, lo, hi)
    ensures Apart(first, cs)
  {
    forall i | 0 <= i < |cs| ensures OffField(first, cs[i]) { assert cs[i].InRegion(lo, hi); }
  }

  /** What Allocate leaves of the list stays clear of the header field. */
  lemma CarveApart(first: nat, cs: seq<Chunk>, k: nat, n: nat)
    requires Apart(first, cs) && k < |cs| && n <= cs[k].bytes
    ensures Apart(first, Carve(cs, k, n))
  {
    var c' := Carve(cs, k, n);
    assert OffField(first, cs[k]);
    forall i | 0 <= i < |c'| ensures OffField(first, c'[i]) {
      assert c'[i] == Chunk(cs[k].addr + n, cs[k].bytes - n) || c'[i] == cs[i] || (i + 1 < |cs| && c'[i] == cs[i + 1]);
    }
  }

  /** And so does the chunk a freed block grows into. */
  lemma ReleaseApart(first: nat, cs: seq<Chunk>, b: Chunk)
    requires Apart(first, cs) && OffField(first, b) && !Overlaps(cs, b)
    requires MergeLeft(cs, b) <= MergeRight(cs, b) <= |cs|
    ensures Apart(first, Splice(cs, MergeLeft(cs, b), [Merged(cs, b)], MergeRight(cs, b)))
  {
    hide Overlaps, Merged, MergeLeft, MergeRight, Position;
    var l, r, m, i := MergeLeft(cs, b), MergeRight(cs, b), Merged(cs, b), Position(cs, b.addr);
    MergeCases(cs, b);
    assert OffField(first, m) by {
      if i > 0 { assert OffField(first, cs[i - 1]); }
      if i < |cs| { assert OffField(first, cs[i]); }
    }
    var c' := Splice(cs, l, [m], r);
    forall j | 0 <= j < |c'| ensures OffField(first, c'[j]) { SpliceAt(first, cs, l, [m], r, j); }
  }

  lemma ReleasedApart(first: nat, cs: seq<Chunk>, b: Chunk, lo: nat, hi: nat)
    requires Apart(first, cs) && OffField(first, b) && !Overlaps(cs, b)
    requires Canonical(cs, lo, hi) && b.InRegion(lo, hi)
    ensures Apart(first, Release(cs, b).value)
  {
    hide Overlaps, Merged, MergeLeft, MergeRight, Position, Canonical;
    MergedRange(cs, b, lo, hi);
    ReleaseApart(first, cs, b);
  }

  lemma ChunksOffField(first: nat, cs: seq<Chunk>, hi: nat)
    requires Apart(first, cs) && Canonical(cs, MEMCHUNK_TOTAL, hi)
    ensures forall c | c in cs :: c.addr > 0 && c.addr != first
  {
    forall c | c in cs ensures c.addr > 0 && c.addr != first {
      var i :| 0 <= i < |cs| && cs[i] == c;
      assert c.InRegion(MEMCHUNK_TOTAL, hi) && OffField(first, cs[i]);
    }
  }

  lemma PositionUnique(cs: seq<Chunk>, b: nat, i: nat)
    requires i <= |cs| && (forall j | 0 <= j < i :: cs[j].addr < b) && (i < |cs| ==> cs[i].addr >= b)
    ensures Position(cs, b) == i
  {
    var p := Position(cs, b);
    assert p < |cs| ==> cs[p].addr >= b;
  }

  // ---- what Deallocate writes ----------------------------------------------------------

  /** The aligned block a call to free (addr, size) stands for. */
  function FreedBlock(addr: nat, size: nat): Chunk
  {
    Chunk(RoundDown(addr), RoundUp((size + And(addr, MEMCHUNK_TOTAL - 1)) % WORD64))
  }

  /** The block is the least aligned one around the bytes freed. */
  lemma FreedBlockInRegion(addr: nat, size: nat, lo: nat, hi: nat)
    requires 0 < size && lo <= addr && addr + size <= hi < WORD64 && lo % 16 == 0 && hi % 16 == 0
    ensures var b := FreedBlock(addr, size);
            b.InRegion(lo, hi) && b.addr <= addr < b.addr + 16 && addr + size <= b.End() < addr + size + 16
  {
    hide And, RoundUp;
    Mask15(addr);
    RoundDownFits(addr);
    RoundUpFits(size + addr % 16);
    AlignedLe(lo, RoundDown(addr));
    AlignedSum(RoundDown(addr), RoundUp(size + addr % 16));
    AlignedLe(RoundDown(addr) + RoundUp(size + addr % 16), hi);
  }

  /** Freeing what Allocate returned, with the size it was asked for, frees the block it reserved. */
  lemma FreedIsGranted(p: nat, size: nat)
    requires p % 16 == 0 && size <= WORD64 - 16
    ensures FreedBlock(p, size) == Chunk(p, RoundUp(size))
  {
    hide And, RoundUp, RoundDown;
    Mask15(p);
    RoundDownFits(p);
  }

  /** Memory once block b is put back. */
  ghost function Released(mem: Memory, first: nat, cs: seq<Chunk>, b: Chunk): Memory
    requires !Overlaps(cs, b)
  {
    var i, m := Position(cs, b.addr), Merged(cs, b);
    var linked := if MergeLeft(cs, b) < i then mem else mem[Before(first, cs, i) := b.addr];
    linked[m.addr := At(cs, MergeRight(cs, b))][m.addr + WORD := m.bytes]
  }

  /** In a canonical list the links and sizes occupy distinct words. */
  lemma WordsApart(cs: seq<Chunk>, lo: nat, hi: nat, first: nat, i: nat, k: nat)
    requires Canonical(cs, lo, hi) && Apart(first, cs) && i <= |cs| && k <= |cs|
    ensures i != k ==> Before(first, cs, i) != Before(first, cs, k)
    ensures k < |cs| ==> Before(first, cs, i) != cs[k].addr + WORD
    ensures i < |cs| && k < |cs| && i != k ==> cs[i].addr + WORD != cs[k].addr + WORD
  {
    if i > 0 { Roomy(cs, i - 1, 0, lo, hi); assert OffField(first, cs[i - 1]); }
    if k > 0 { Roomy(cs, k - 1, 0, lo, hi); assert OffField(first, cs[k - 1]); }
    if k < |cs| { Roomy(cs, k, 0, lo, hi); assert OffField(first, cs[k]); }
    if i > 0 && k > 0 && i != k { ChunksApart(cs, i - 1, k - 1, lo, hi); }
    if i > 0 && k < |cs| && i - 1 != k { ChunksApart(cs, i - 1, k, lo, hi); }
    if i < |cs| && k < |cs| && i != k { ChunksApart(cs, i, k, lo, hi); }
  }

  lemma MergedStart(cs: seq<Chunk>, b: Chunk)
    requires !Overlaps(cs, b)
    ensures var i, l := Position(cs, b.addr), MergeLeft(cs, b);
            Merged(cs, b).addr == if l < i then cs[l].addr else b.addr
  {
  }

  /** The three words written are those around the new chunk in the new list. */
  lemma ReleasedWords(mem: Memory, first: nat, cs: seq<Chunk>, b: Chunk, lo: nat, hi: nat)
    requires Apart(first, cs) && Canonical(cs, lo, hi) && Linked(mem, first, cs)
    requires OffField(first, b) && b.InRegion(lo, hi) && !Overlaps(cs, b)
    ensures var l, r, m := MergeLeft(cs, b), MergeRight(cs, b), Merged(cs, b);
            var m' := Released(mem, first, cs, b);
            && Peek(m', Before(first, cs, l)) == m.addr
            && Peek(m', m.addr) == At(cs, r) && Peek(m', m.addr + WORD) == m.bytes
            && SameBut(mem, m', Before(first, cs, l), m.addr, m.addr + WORD)
  {
    hide Linked, Canonical, Position, Overlaps, Merged, MergeLeft, MergeRight, Before, Apart;
    MergedStart(cs, b);
    MergedWords(first, cs, b, lo, hi);
    LinkAt(mem, first, cs, MergeLeft(cs, b));
  }

  /** The words around the merged chunk are distinct. */
  lemma MergedWords(first: nat, cs: seq<Chunk>, b: Chunk, lo: nat, hi: nat)
    requires Apart(first, cs) && Canonical(cs, lo, hi)
    requires OffField(first, b) && b.InRegion(lo, hi) && !Overlaps(cs, b)
    ensures var l, m := MergeLeft(cs, b), Merged(cs, b);
            l <= MergeRight(cs, b) <= |cs| && Before(first, cs, l) != m.addr && Before(first, cs, l) != m.addr + WORD
  {
    hide Canonical, Position, Overlaps, Merged, MergeLeft, MergeRight, Apart;
    var l, r, m := MergeLeft(cs, b), MergeRight(cs, b), Merged(cs, b);
    MergedRange(cs, b, lo, hi);
    var c' := Splice(cs, l, [m], r);
    SpliceCanonical(cs, l, [m], r, lo, hi);
    ReleaseApart(first, cs, b);
    SpliceAt(first, cs, l, [m], r, l);
    WordsApart(c', lo, hi, first, l, l);
    WordsApart(c', lo, hi, first, l, l + 1);
  }

  lemma ReleaseLinked(mem: Memory, first: nat, cs: seq<Chunk>, b: Chunk, lo: nat, hi: nat)
    requires Apart(first, cs) && Canonical(cs, lo, hi) && Linked(mem, first, cs)
    requires OffField(first, b) && b.InRegion(lo, hi) && !Overlaps(cs, b)
    ensures Linked(Released(mem, first, cs, b), first, Release(cs, b).value)
  {
    hide Released, Merged, MergeLeft, MergeRight, Overlaps, Linked, Canonical;
    var l, r, m := MergeLeft(cs, b), MergeRight(cs, b), Merged(cs, b);
    var m' := Released(mem, first, cs, b);
    MergedRange(cs, b, lo, hi);
    ReleasedWords(mem, first, cs, b, lo, hi);
    SpliceCanonical(cs, l, [m], r, lo, hi);
    ReleaseApart(first, cs, b);
    var c' := Splice(cs, l, [m], r);
    forall i | 0 <= i <= |cs| && !(l <= i <= r) ensures Link(m', first, cs, i) {
      KeptLink(mem, m', first, cs, l, m, r, lo, hi, i);
    }
    forall i | 0 <= i < |cs| && !(l <= i < r) ensures Size(m', cs, i) {
      KeptSize(mem, m', first, cs, l, m, r, lo, hi, i);
    }
    Relinked(m', first, cs, l, [m], r);
  }

  ghost predicate SameBut(mem: Memory, m': Memory, x: nat, y: nat, z: nat)
  {
    forall w: nat | w != x && w != y && w != z :: Peek(m', w) == Peek(mem, w)
  }

  lemma KeptLink(mem: Memory, m': Memory, first: nat, cs: seq<Chunk>, l: nat, m: Chunk, r: nat, lo: nat, hi: nat,
      i: nat)
    requires l <= r <= |cs| && Canonical(Splice(cs, l, [m], r), lo, hi) && Apart(first, Splice(cs, l, [m], r))
    requires Linked(mem, first, cs) && SameBut(mem, m', Before(first, cs, l), m.addr, m.addr + WORD)
    requires i <= |cs| && !(l <= i <= r)
    ensures Link(m', first, cs, i)
  {
    hide Canonical;
    var j := if i < l then i else i - r + l + 1;
    KeptWords(first, cs, l, m, r, lo, hi, j);
    LinkAt(mem, first, cs, i);
    SpliceAt(first, cs, l, [m], r, j);
  }

  lemma KeptSize(mem: Memory, m': Memory, first: nat, cs: seq<Chunk>, l: nat, m: Chunk, r: nat, lo: nat, hi: nat,
      i: nat)
    requires l <= r <= |cs| && Canonical(Splice(cs, l, [m], r), lo, hi) && Apart(first, Splice(cs, l, [m], r))
    requires Linked(mem, first, cs) && SameBut(mem, m', Before(first, cs, l), m.addr, m.addr + WORD)
    requires i < |cs| && !(l <= i < r)
    ensures Size(m', cs, i)
  {
    hide Canonical;
    var j := if i < l then i else i - r + l + 1;
    KeptWords(first, cs, l, m, r, lo, hi, j);
    LinkAt(mem, first, cs, i + 1);
    SpliceAt(first, cs, l, [m], r, j);
  }

  lemma KeptWords(first: nat, cs: seq<Chunk>, l: nat, m: Chunk, r: nat, lo: nat, hi: nat, j: nat)
    requires l <= r <= |cs| && Canonical(Splice(cs, l, [m], r), lo, hi) && Apart(first, Splice(cs, l, [m], r))
    requires j <= |Splice(cs, l, [m], r)|
    ensures var c' := Splice(cs, l, [m], r);
            && (j != l && j != l + 1 ==> Before(first, c', j) !in {Before(first, cs, l), m.addr, m.addr + WORD})
            && (j != l && j < |c'| ==> c'[j].addr + WORD !in {Before(first, cs, l), m.addr, m.addr + WORD})
  {
    var c' := Splice(cs, l, [m], r);
    SpliceAt(first, cs, l, [m], r, l);
    assert c'[l] == m && Before(first, c', l + 1) == m.addr;
    WordsApart(c', lo, hi, first, j, l);
    WordsApart(c', lo, hi, first, j, l + 1);
    WordsApart(c', lo, hi, first, l, j);
    WordsApart(c', lo, hi, first, l + 1, j);
  }

  /** Only the header field and words that end up free are written. */
  lemma ReleaseFrame(mem: Memory, first: nat, cs: seq<Chunk>, b: Chunk, lo: nat, hi: nat, a: nat)
    requires Apart(first, cs) && Canonical(cs, lo, hi) && Linked(mem, first, cs)
    requires OffField(first, b) && b.InRegion(lo, hi) && !Overlaps(cs, b)
    requires a != first && !Covers(Release(cs, b).value, a)
    ensures Peek(Released(mem, first, cs, b), a) == Peek(mem, a)
  {
    hide Linked, Canonical, Position, Overlaps, Merged, MergeLeft, MergeRight, Apart, Released;
    var l, r, m := MergeLeft(cs, b), MergeRight(cs, b), Merged(cs, b);
    MergedRange(cs, b, lo, hi);
    ReleasedWords(mem, first, cs, b, lo, hi);
    SpliceCovers(cs, l, [m], r, a);
    CoversOne(m, a);
    if l > 0 {
      Roomy(cs, l - 1, 0, lo, hi);
      assert !cs[..l][l - 1].Has(a);
    }
  }

  /** All of it, anywhere in the address space. */
  lemma ReleaseKeeps(mem: Memory, first: nat, cs: seq<Chunk>, b: Chunk)
    requires Apart(first, cs) && Canonical(cs, MEMCHUNK_TOTAL, TOP) && Linked(mem, first, cs)
    requires OffField(first, b) && b.InRegion(MEMCHUNK_TOTAL, TOP) && !Overlaps(cs, b)
    ensures var c', m' := Release(cs, b).value, Released(mem, first, cs, b);
            && Apart(first, c') && Canonical(c', MEMCHUNK_TOTAL, TOP) && Linked(m', first, c')
            && Sum(c') == Sum(cs) + b.bytes
            && forall a: nat | a != first && !Covers(c', a) :: Peek(m', a) == Peek(mem, a)
  {
    hide Linked, Canonical, Merged, MergeLeft, MergeRight, Apart, Released, Covers;
    ReleaseBytes(cs, b, MEMCHUNK_TOTAL, TOP);
    ReleasedApart(first, cs, b, MEMCHUNK_TOTAL, TOP);
    ReleaseLinked(mem, first, cs, b, MEMCHUNK_TOTAL, TOP);
    forall a: nat | a != first && !Covers(Release(cs, b).value, a)
      ensures Peek(Released(mem, first, cs, b), a) == Peek(mem, a)
    {
      ReleaseFrame(mem, first, cs, b, MEMCHUNK_TOTAL, TOP, a);
    }
  }

  /** memset(p, 0, n) */
  function Zeroed(mem: Memory, p: nat, n: nat): Memory
  {
    map a | a in mem :: if p <= a < p + n then 0 else mem[a]
  }

  lemma RoundedLength(base: nat, len: nat)
    ensures var n := len - And(len, MEMCHUNK_TOTAL - 1);
            && n == len - len % MEMCHUNK_TOTAL && n % MEMCHUNK_TOTAL == 0 && (n == 0 <==> len < MEMCHUNK_TOTAL)
            && (base % MEMCHUNK_TOTAL == 0 ==> (base + n) % MEMCHUNK_TOTAL == 0)
  {
    hide And;
    Mask15(len);
    if base % MEMCHUNK_TOTAL == 0 { AlignedSum(base, len - len % MEMCHUNK_TOTAL); }
  }

  /** The address of chunk i, or NULL past the end. */
  function At(cs: seq<Chunk>, i: nat): nat
    requires i <= |cs|
  {
    if i < |cs| then cs[i].addr else NULL
  }

  /** The node whose link leads to chunk i: the header field, or the chunk before. */
  function Before(first: nat, cs: seq<Chunk>, i: nat): nat
    requires i <= |cs|
  {
    if i == 0 then first else cs[i - 1].addr
  }

  ghost predicate Outside(first: nat, lo: nat, hi: nat)
  {
    0 < first && (first + WORD <= lo || hi <= first)
  }

  /** Memory holds exactly this list, linked from the header field. */
  ghost predicate Linked(mem: Memory, first: nat, cs: seq<Chunk>)
  {
    && (forall i | 0 <= i <= |cs| :: Link(mem, first, cs, i))
    && (forall i | 0 <= i < |cs| :: Size(mem, cs, i))
  }

  ghost predicate Link(mem: Memory, first: nat, cs: seq<Chunk>, i: nat)
    requires i <= |cs|
  {
    Peek(mem, Before(first, cs, i)) == At(cs, i)
  }

  ghost predicate Size(mem: Memory, cs: seq<Chunk>, i: nat)
    requires i < |cs|
  {
    Peek(mem, cs[i].addr + WORD) == cs[i].bytes
  }

  lemma LinkAt(mem: Memory, first: nat, cs: seq<Chunk>, i: nat)
    requires Linked(mem, first, cs) && i <= |cs|
    ensures Peek(mem, Before(first, cs, i)) == At(cs, i)
    ensures 0 < i ==> Peek(mem, cs[i - 1].addr) == At(cs, i) && Peek(mem, cs[i - 1].addr + WORD) == cs[i - 1].bytes
  {
    assert Link(mem, first, cs, i);
    assert 0 < i ==> Size(mem, cs, i - 1);
  }

  /** Chunks l..r replaced by at most one chunk: relinking takes the predecessor's link and the
      new chunk's two words, with everything else on the list left as it was. */
  lemma Relinked(mem': Memory, first: nat, cs: seq<Chunk>, l: nat, mid: seq<Chunk>, r: nat)
    requires l <= r <= |cs| && |mid| <= 1
    requires Peek(mem', Before(first, cs, l)) == if mid == [] then At(cs, r) else mid[0].addr
    requires mid != [] ==> Peek(mem', mid[0].addr) == At(cs, r) && Peek(mem', mid[0].addr + WORD) == mid[0].bytes
    requires forall i | 0 <= i <= |cs| && !(l <= i <= r) :: Link(mem', first, cs, i)
    requires forall i | 0 <= i < |cs| && !(l <= i < r) :: Size(mem', cs, i)
    ensures Linked(mem', first, Splice(cs, l, mid, r))
  {
    var c' := Splice(cs, l, mid, r);
    forall i | 0 <= i <= |c'| ensures Link(mem', first, c', i) {
      SpliceAt(first, cs, l, mid, r, i);
      if i < l { assert Link(mem', first, cs, i); }
      if i > l + |mid| { assert Link(mem', first, cs, i - l - |mid| + r); }
    }
    forall i | 0 <= i < |c'| ensures Size(mem', c', i) {
      SpliceAt(first, cs, l, mid, r, i);
      if i < l { assert Size(mem', cs, i); }
      if i >= l + |mid| { assert Size(mem', cs, i - l - |mid| + r); }
    }
  }

  lemma SpliceAt(first: nat, cs: seq<Chunk>, l: nat, mid: seq<Chunk>, r: nat, i: nat)
    requires l <= r <= |cs| && |mid| <= 1
    requires i <= |Splice(cs, l, mid, r)|
    ensures var c' := Splice(cs, l, mid, r);
            var e := i - l - |mid| + r;
            && (i < |c'| ==> c'[i] == if i < l then cs[i] else if i < l + |mid| then mid[0] else cs[e])
            && At(c', i) == (if i < l then At(cs, i) else if i < l + |mid| then mid[0].addr else At(cs, e))
            && Before(first, c', i) ==
               if i <= l then Before(first, cs, i) else if i == l + |mid| then mid[0].addr else Before(first, cs, e)
  {
  }

  lemma NoneFits(cs: seq<Chunk>, n: nat, reverse: bool)
    requires Sum(cs) < n
    ensures Fit(cs, n, reverse).None?
  {
    forall j | 0 <= j < |cs| ensures cs[j].bytes < n { SumAt(cs, j); }
  }

  // ---- what Allocate writes ------------------------------------------------------------

  /** Memory once n bytes are taken off chunk k, cleared or not. */
  ghost function Granted(mem: Memory, first: nat, cs: seq<Chunk>, k: nat, n: nat, clear: bool): Memory
    requires k < |cs| && n <= cs[k].bytes
  {
    var rem := cs[k].addr + n;
    var m := if cs[k].bytes == n then mem[Before(first, cs, k) := At(cs, k + 1)]
             else mem[Before(first, cs, k) := rem][rem := At(cs, k + 1)][rem + WORD := cs[k].bytes - n];
    if clear then Zeroed(m, cs[k].addr, n) else m
  }

  /** Chunks are at least 16 bytes, so their two words lie inside them. */
  lemma Roomy(cs: seq<Chunk>, k: nat, n: nat, lo: nat, hi: nat)
    requires Canonical(cs, lo, hi) && k < |cs| && n <= cs[k].bytes && n % 16 == 0
    ensures cs[k].bytes >= 16 && lo <= cs[k].addr && cs[k].End() <= hi
    ensures n < cs[k].bytes ==> n + 16 <= cs[k].bytes
  {
    assert cs[k].InRegion(lo, hi);
  }

  lemma ChunksApart(cs: seq<Chunk>, i: nat, k: nat, lo: nat, hi: nat)
    requires Canonical(cs, lo, hi) && i < |cs| && k < |cs| && i != k
    ensures cs[i].End() <= cs[k].addr || cs[k].End() <= cs[i].addr
    ensures cs[i].bytes >= 16 && cs[k].bytes >= 16
    ensures lo <= cs[i].addr && cs[i].End() <= hi && lo <= cs[k].addr && cs[k].End() <= hi
  {
    Roomy(cs, i, 0, lo, hi);
    Roomy(cs, k, 0, lo, hi);
    if i < k { assert cs[i].End() < cs[k].addr; } else { assert cs[k].End() < cs[i].addr; }
  }

  lemma GrantedLink(mem: Memory, first: nat, cs: seq<Chunk>, k: nat, n: nat, lo: nat, hi: nat, clear: bool, i: nat)
    requires Apart(first, cs) && Canonical(cs, lo, hi) && Linked(mem, first, cs)
    requires k < |cs| && n <= cs[k].bytes && n % 16 == 0 && i <= |cs| && i != k && i != k + 1
    ensures Link(Granted(mem, first, cs, k, n, clear), first, cs, i)
  {
    hide Canonical, Linked;
    LinkAt(mem, first, cs, i);
    Roomy(cs, k, n, lo, hi);
    assert OffField(first, cs[k]);
    if i > 0 {
      ChunksApart(cs, i - 1, k, lo, hi);
      if k > 0 { ChunksApart(cs, i - 1, k - 1, lo, hi); }
    } else if k > 0 {
      Roomy(cs, k - 1, 0, lo, hi);
    }
  }

  lemma GrantedSize(mem: Memory, first: nat, cs: seq<Chunk>, k: nat, n: nat, lo: nat, hi: nat, clear: bool, i: nat)
    requires Apart(first, cs) && Canonical(cs, lo, hi) && Linked(mem, first, cs)
    requires k < |cs| && n <= cs[k].bytes && n % 16 == 0 && i < |cs| && i != k
    ensures Size(Granted(mem, first, cs, k, n, clear), cs, i)
  {
    LinkAt(mem, first, cs, i + 1);
    Roomy(cs, k, n, lo, hi);
    ChunksApart(cs, i, k, lo, hi);
    assert OffField(first, cs[i]);
    if k > 0 && i != k - 1 { ChunksApart(cs, i, k - 1, lo, hi); }
  }

  lemma GrantedEnds(mem: Memory, first: nat, cs: seq<Chunk>, k: nat, n: nat, lo: nat, hi: nat, clear: bool)
    requires Apart(first, cs) && Canonical(cs, lo, hi) && Linked(mem, first, cs)
    requires k < |cs| && n <= cs[k].bytes && n % 16 == 0
    ensures var m, rem := Granted(mem, first, cs, k, n, clear), cs[k].addr + n;
            && Peek(m, Before(first, cs, k)) == (if n == cs[k].bytes then At(cs, k + 1) else rem)
            && (n < cs[k].bytes ==> Peek(m, rem) == At(cs, k + 1) && Peek(m, rem + WORD) == cs[k].bytes - n)
  {
    Roomy(cs, k, n, lo, hi);
    assert OffField(first, cs[k]);
    if k > 0 { ChunksApart(cs, k - 1, k, lo, hi); }
  }

  lemma GrantedFrame(mem: Memory, first: nat, cs: seq<Chunk>, k: nat, n: nat, lo: nat, hi: nat, clear: bool, a: nat)
    requires Canonical(cs, lo, hi) && k < |cs| && n <= cs[k].bytes && n % 16 == 0
    ensures a != first && !Covers(cs, a) ==> Peek(Granted(mem, first, cs, k, n, clear), a) == Peek(mem, a)
    ensures clear && Chunk(cs[k].addr, n).Has(a) ==> Peek(Granted(mem, first, cs, k, n, clear), a) == 0
  {
    Roomy(cs, k, n, lo, hi);
    if !Covers(cs, a) {
      assert !cs[k].Has(a);
      if k > 0 {
        Roomy(cs, k - 1, 0, lo, hi);
        assert !cs[k - 1].Has(a);
      }
    }
  }

  /** Taking n bytes off chunk k, cleared or not, leaves a well-linked list, and touches only the
      header field and words that were free. */
  lemma GrantLinked(mem: Memory, first: nat, cs: seq<Chunk>, k: nat, n: nat, lo: nat, hi: nat, clear: bool)
    requires Apart(first, cs) && Canonical(cs, lo, hi) && Linked(mem, first, cs)
    requires k < |cs| && n <= cs[k].bytes && n % 16 == 0
    ensures var m := Granted(mem, first, cs, k, n, clear);
            && Linked(m, first, Carve(cs, k, n))
            && (forall a: nat | a != first && !Covers(cs, a) :: Peek(m, a) == Peek(mem, a))
            && (clear ==> forall a: nat | Chunk(cs[k].addr, n).Has(a) :: Peek(m, a) == 0)
  {
    hide Granted, Canonical, Linked, Apart, Link, Size, Covers;
    var m, mid := Granted(mem, first, cs, k, n, clear), Remainder(cs[k], n);
    forall i | 0 <= i <= |cs| && !(k <= i <= k + 1) ensures Link(m, first, cs, i) {
      GrantedLink(mem, first, cs, k, n, lo, hi, clear, i);
    }
    forall i | 0 <= i < |cs| && !(k <= i < k + 1) ensures Size(m, cs, i) {
      GrantedSize(mem, first, cs, k, n, lo, hi, clear, i);
    }
    GrantedEnds(mem, first, cs, k, n, lo, hi, clear);
    CarveIsSplice(cs, k, n);
    Relinked(m, first, cs, k, mid, k + 1);
    forall a: nat
      ensures a != first && !Covers(cs, a) ==> Peek(m, a) == Peek(mem, a)
      ensures clear && Chunk(cs[k].addr, n).Has(a) ==> Peek(m, a) == 0
    {
      GrantedFrame(mem, first, cs, k, n, lo, hi, clear, a);
    }
  }

  // ---- the code ------------------------------------------------------------------------

  class MemHeader {
    // The word at `first` is the mh_First field itself, so the address `first` serves as the
    // predecessor of the first chunk.
    var mem: Memory
    const first: nat
    const lower: nat
    const upper: nat
    var free: nat
    ghost var chunks: seq<Chunk>

    ghost predicate Valid()
      reads this
    {
      && Apart(first, chunks)
      && Canonical(chunks, MEMCHUNK_TOTAL, TOP)
      && Linked(mem, first, chunks)
      && free == Sum(chunks)
    }

    /** mh_Init: one chunk over the whole region, an empty one when the length rounds to 0. It is
        a usable list exactly when it is not empty, aligned, and clear of the top address. */
    constructor (field: nat, base: nat, len: nat, ram: Memory)
      requires 0 < base && base + len <= WORD64
      requires Outside(field, base, base + (if len < MEMCHUNK_TOTAL then MEMCHUNK_TOTAL else len))
      ensures first == field && lower == base && upper == base + (len - len % MEMCHUNK_TOTAL)
      ensures chunks == [Chunk(lower, upper - lower)] && free == Sum(chunks) && Linked(mem, first, chunks)
      ensures Valid() <==> MEMCHUNK_TOTAL <= len && base % MEMCHUNK_TOTAL == 0 && upper <= TOP
      ensures forall a: nat | a !in {first, lower, lower + WORD} :: Peek(mem, a) == Peek(ram, a)
    {
      var n := len - And(len, MEMCHUNK_TOTAL - 1);
      RoundedLength(base, len);
      first, lower, upper, free := field, base, base + n, n;
      mem := ram[field := base][base := NULL][base + WORD := n];
      chunks := [Chunk(base, n)];
      CoversOne(Chunk(base, n), base);
      assert OffField(field, Chunk(base, n));
      ghost var cs := [Chunk(base, n)];
      assert Canonical(cs, MEMCHUNK_TOTAL, TOP) <==> cs[0].InRegion(MEMCHUNK_TOTAL, TOP);
    }

    /** The walk of Allocate: returns the predecessor of the chunk it settles on, or NULL. */
    method FindFit(byteSize: nat, reverse: bool) returns (mc: int, ghost k: nat)
      requires Linked(mem, first, chunks) && forall c | c in chunks :: c.addr > 0
      requires first > 0
      ensures mc == NULL <==> Fit(chunks, byteSize, reverse).None?
      ensures mc != NULL ==> Fit(chunks, byteSize, reverse) == Some(k) && mc == Before(first, chunks, k)
    {
      hide Fit, Linked;
      var p1 := first;
      var p2 := Peek(mem, p1);
      mc, k := NULL, 0;
      ghost var i := 0;
      LinkAt(mem, first, chunks, 0);
      while p2 != NULL
        invariant i <= |chunks| && p1 == Before(first, chunks, i) && p2 == At(chunks, i)
        invariant mc == NULL ==> forall j | 0 <= j < i :: chunks[j].bytes < byteSize
        invariant mc != NULL ==> reverse && k < i && mc == Before(first, chunks, k) && chunks[k].bytes >= byteSize
        invariant mc != NULL ==> forall j | k < j < i :: chunks[j].bytes < byteSize
        decreases |chunks| - i
      {
        LinkAt(mem, first, chunks, i + 1);
        if Peek(mem, p2 + WORD) >= byteSize {
          mc := p1;
          k := i;
          if !reverse {
            break;
          }
        }
        p1 := p2;
        p2 := Peek(mem, p1);
        i := i + 1;
      }
      assert mc == NULL ==> i == |chunks|;
      if mc != NULL {
        assert IsFit(chunks, byteSize, reverse, k);
        FitUnique(chunks, byteSize, reverse, k);
      }
    }

    /** First-fit (last-fit with `reverse`) out of the free list. */
    method Allocate(size: nat, reverse: bool, clear: bool) returns (p: nat)
      requires Valid() && size < WORD64
      modifies this
      ensures Valid()
      ensures p == NULL <==> size == 0 || Alloc(old(chunks), RoundUp(size), reverse).None?
      ensures p == NULL ==> mem == old(mem) && chunks == old(chunks) && free == old(free)
      ensures p != NULL ==>
                Alloc(old(chunks), RoundUp(size), reverse) == Some(Grant(p, chunks))
                  && free == old(free) - RoundUp(size)
      ensures forall a: nat | a != first && !Covers(old(chunks), a) :: Peek(mem, a) == Peek(old(mem), a)
      ensures p != NULL && clear ==> forall a: nat | Chunk(p, RoundUp(size)).Has(a) :: Peek(mem, a) == 0
    {
      if size == 0 {
        return NULL;
      }
      var byteSize := RoundUp(size);
      RoundUpFits(size);
      if free < byteSize {
        NoneFits(chunks, byteSize, reverse);
        return NULL;
      }
      ChunksOffField(first, chunks, TOP);
      var mc, k := FindFit(byteSize, reverse);
      if mc == NULL {
        return NULL;
      }
      GrantLinked(mem, first, chunks, k, byteSize, MEMCHUNK_TOTAL, TOP, clear);
      AllocBytes(chunks, byteSize, reverse, MEMCHUNK_TOTAL, TOP);
      CarveApart(first, chunks, k, byteSize);
      p := Detach(mc, byteSize, clear, k);
      chunks := Carve(chunks, k, byteSize);
      free := free - byteSize;
    }

    /** The second half of Allocate: unlink or split the chunk after mc, and clear the block. */
    method Detach(mc: int, byteSize: nat, clear: bool, ghost k: nat) returns (p: nat)
      requires Linked(mem, first, chunks)
      requires k < |chunks| && mc == Before(first, chunks, k)
      requires byteSize <= chunks[k].bytes
      modifies this`mem
      ensures p == chunks[k].addr
      ensures mem == Granted(old(mem), first, chunks, k, byteSize, clear)
    {
      LinkAt(mem, first, chunks, k);
      LinkAt(mem, first, chunks, k + 1);
      var p1 := mc;
      var p2 := Peek(mem, p1);
      if Peek(mem, p2 + WORD) == byteSize {
        mem := mem[p1 := Peek(mem, p2)];
      } else {
        var rem := p2 + byteSize;
        var next, bytes := Peek(mem, p2), Peek(mem, p2 + WORD) - byteSize;
        mem := mem[p1 := rem][rem := next][rem + WORD := bytes];
      }
      if clear {
        mem := Zeroed(mem, p2, byteSize);
      }
      p := p2;
    }

    /** The coalescing insert; false is the double-free report. The list stays usable for a block
        that covers neither the null address nor the header. */
    method Deallocate(addr: nat, size: nat) returns (ok: bool)
      requires Valid()
      requires addr != NULL && size != 0 ==>
                 var b := FreedBlock(addr, size); addr + size <= TOP && b.addr != first && b.addr + WORD != first
      modifies this
      ensures addr == NULL || size == 0 ==>
                Valid() && ok && mem == old(mem) && chunks == old(chunks) && free == old(free)
      ensures !ok ==> Valid() && mem == old(mem) && chunks == old(chunks) && free == old(free)
      ensures addr != NULL && size != 0 ==>
                var b := FreedBlock(addr, size);
                && (ok <==> Release(old(chunks), b).Some?)
                && (ok ==> Some(chunks) == Release(old(chunks), b) && free == old(free) + b.bytes)
                && (ok ==> mem == Released(old(mem), first, old(chunks), b))
      ensures addr >= MEMCHUNK_TOTAL && size != 0 && OffField(first, FreedBlock(addr, size)) ==>
                Valid() && forall a: nat | a != first && !Covers(chunks, a) :: Peek(mem, a) == Peek(old(mem), a)
    {
      hide Linked, Merged, MergeLeft, MergeRight, Apart, Released, Covers, Overlaps, And, RoundUp;
      if addr == NULL || size == 0 {
        return true;
      }
      var byteSize := (size + And(addr, MEMCHUNK_TOTAL - 1)) % WORD64;
      byteSize := RoundUp(byteSize);
      var p3 := RoundDown(addr);
      ghost var b := FreedBlock(addr, size);
      ChunksOffField(first, chunks, TOP);
      ok := Insert(p3, byteSize);
      if ok {
        if addr >= MEMCHUNK_TOTAL && OffField(first, b) {
          FreedBlockInRegion(addr, size, MEMCHUNK_TOTAL, TOP);
          ReleaseKeeps(old(mem), first, chunks, b);
        }
        chunks := Release(chunks, b).value;
        free := free + byteSize;
      }
    }

    /** The walk of Deallocate: stops at the first chunk at or above the block. */
    method FindGap(block: nat) returns (p1: int, p2: int)
      requires Linked(mem, first, chunks) && forall c | c in chunks :: c.addr > 0
      ensures var i := Position(chunks, block); p1 == Before(first, chunks, i) && p2 == At(chunks, i)
    {
      p1, p2 := first, Peek(mem, first);
      ghost var i := 0;
      LinkAt(mem, first, chunks, 0);
      while p2 != NULL && p2 < block
        invariant i <= |chunks| && p1 == Before(first, chunks, i) && p2 == At(chunks, i)
        invariant forall j | 0 <= j < i :: chunks[j].addr < block
        decreases |chunks| - i
      {
        LinkAt(mem, first, chunks, i + 1);
        p1 := p2;
        p2 := Peek(mem, p2);
        i := i + 1;
      }
      PositionUnique(chunks, block, i);
    }

    /** The comparisons and the writes of Deallocate on the aligned block. */
    method Insert(block: nat, byteSize: nat) returns (ok: bool)
      requires Linked(mem, first, chunks) && forall c | c in chunks :: c.addr > 0 && c.addr != first
      requires first != block && first != block + WORD
      modifies this`mem
      ensures ok <==> !Overlaps(chunks, Chunk(block, byteSize))
      ensures mem == if ok then Released(old(mem), first, chunks, Chunk(block, byteSize)) else old(mem)
    {
      hide Linked, Position, Overlaps, Merged, MergeLeft, MergeRight, Released;
      ghost var i, b := Position(chunks, block), Chunk(block, byteSize);
      MergeCases(chunks, b);
      LinkAt(mem, first, chunks, 0);
      if Peek(mem, first) == NULL {
        ReleasedIs(mem, first, chunks, b);
        mem := mem[block + WORD := byteSize][block := NULL][first := block];
        return true;
      }
      var p1, p2 := FindGap(block);
      var p3: nat, p4: nat := block, block + byteSize;
      if 0 < i { LinkAt(mem, first, chunks, i); }
      if i < |chunks| { LinkAt(mem, first, chunks, i + 1); }
      if p2 != NULL && p4 > p2 {
        return false;
      }
      if p1 != first {
        if p1 + Peek(mem, p1 + WORD) > p3 {
          return false;
        }
      }
      var next, bytes := Peek(mem, p2), Peek(mem, p2 + WORD);
      if p1 != first && p1 + Peek(mem, p1 + WORD) == p3 {
        p3 := p1;
      } else {
        mem := mem[p1 := p3];
      }
      if p4 == p2 && p2 != NULL {
        p4 := p4 + bytes;
        p2 := next;
      }
      var size: nat := p4 - p3;
      assert p3 == Merged(chunks, b).addr && size == Merged(chunks, b).bytes;
      assert p2 == At(chunks, MergeRight(chunks, b));
      mem := mem[p3 := p2];
      mem := mem[p3 + WORD := size];
      ReleasedIs(old(mem), first, chunks, b);
      return true;
    }
  }
}
