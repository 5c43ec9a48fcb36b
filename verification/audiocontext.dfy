/** The ring's own code: CAContext with its slot array and wrapped counters, updated in place.
    Each method here runs without interference; module Ring interleaves the same accesses. */
module AudioContext {
  import opened Bits
  import opened Ring

  const SILENCE := Frame(0, 0)

  /** Least power of two that is at least 2 and at least n. */
  method NextPow2(n: nat) returns (p: nat)
    requires n <= 0x8000_0000
    ensures Geometry(p) && n <= p
    ensures p == 2 || p < 2 * n
    ensures forall q: nat | Geometry(q) && n <= q :: p <= q
  {
    p := 2;
    ghost var e := 1;
    assert Pow2(1) == 2;
    Pow2Of32();
    while p < n
      invariant 1 <= e <= 31 && p == Pow2(e)
      invariant e > 1 ==> Pow2(e - 1) < n
      decreases 31 - e
    {
      p := (p * 2) % WORD32;
      e := e + 1;
      Pow2Mono(e, 31);
    }
    forall q: nat | Geometry(q) && n <= q ensures p <= q {
      var f: nat :| 1 <= f <= 31 && q == Pow2(f);
      if f < e {
        Pow2Mono(f, e - 1);
      } else {
        Pow2Mono(e, f);
      }
    }
  }

  /** The ring ca_open makes: the least power of two that has a slot more than the frames asked
      for, 4 at least. */
  ghost predicate OpenedWith(ringFrames: int, cap: nat)
  {
    && Geometry(cap) && 4 <= cap && ringFrames < cap
    && forall q: nat | Geometry(q) && 4 <= q && ringFrames < q :: cap <= q
  }

  class CAContext {
    const slots: array<Frame>
    const cap: nat
    var head: nat
    var tail: nat
    var underruns: nat
    ghost var queue: seq<Frame>     // frames pushed and not yet rendered
    ghost var taken: nat            // frames rendered so far

    ghost predicate Valid()
      reads this, slots
    {
      && Geometry(cap) && cap >= 2 && slots.Length == cap
      && head == taken % WORD32 && tail == (taken + |queue|) % WORD32
      && |queue| < cap
      && Holds(slots[..], taken, queue)
    }

    /** ca_open. The usable size, cap - 1, is what was asked for exactly when that is 2 or more and
        one more frame is a power of two. */
    constructor (ringFrames: int)
      requires ringFrames < 0x8000_0000
      ensures Valid() && fresh(slots) && queue == [] && taken == 0 && underruns == 0
      ensures OpenedWith(ringFrames, cap)
      ensures cap - 1 == ringFrames <==> ringFrames >= 2 && Geometry(ringFrames + 1)
    {
      var r: nat := if ringFrames < 2 then 2 else ringFrames;
      var c := NextPow2(r + 1);
      cap := c;
      slots := new Frame[c](_ => SILENCE);
      head, tail, underruns := 0, 0, 0;
      queue, taken := [], 0;
      new;
      GeometryBound(c);
      FourIsLeast(c);
    }

    method RingCapacity() returns (n: nat)
      requires Valid()
      ensures n == cap - 1 && |queue| <= n
    {
      n := cap - 1;
    }

    method RingSpace() returns (n: nat)
      requires Valid()
      ensures n == cap - 1 - |queue|
    {
      UsedIsExact(cap, taken, taken + |queue|);
      n := FreeFrames(cap, head, tail);
    }

    /** Accepts as many frames as fit, in order. */
    method RingPush(src: seq<Frame>) returns (n: nat)
      requires Valid() && |src| < WORD32
      modifies this`tail, this`queue, slots
      ensures Valid()
      ensures n == Min(|src|, cap - 1 - |old(queue)|)
      ensures queue == old(queue) + src[..n]
    {
      hide Holds, Geometry, Add32, Sub32;
      UsedIsExact(cap, taken, taken + |queue|);
      n := Min(|src|, FreeFrames(cap, head, tail));
      CopyIn(src, n);
      Advanced(taken + |queue|, n);
      tail := Add32(tail, n);
      queue := queue + src[..n];
    }

    /** The copy loop of RingPush. */
    method CopyIn(src: seq<Frame>, n: nat)
      requires Valid() && n <= |src| && |queue| + n < cap
      modifies slots
      ensures Holds(slots[..], taken, queue + src[..n])
    {
      hide Holds, Geometry, Index;
      var i := 0;
      assert queue + src[..0] == queue;
      while i < n
        invariant 0 <= i <= n
        invariant Holds(slots[..], taken, queue + src[..i])
      {
        ghost var was := slots[..];
        IndexIsSlot(cap, taken + |queue|, i);
        var idx := Index(cap, tail, i);
        slots[idx] := src[i];
        Appended(was, taken, queue, src, i);
        assert slots[..] == was[idx := src[i]];
        i := i + 1;
      }
    }

    /** Renders `want` frames: what the ring holds, then silence; a short ring is an underrun. */
    method Render(want: nat) returns (out: seq<Frame>)
      requires Valid() && want < WORD32
      modifies this`head, this`underruns, this`queue, this`taken
      ensures Valid()
      ensures |out| == want
      ensures var take := Min(want, |old(queue)|);
              && out[..take] == old(queue)[..take]
              && (forall j | take <= j < want :: out[j] == SILENCE)
              && queue == old(queue)[take..] && taken == old(taken) + take
              && underruns == old(underruns) + (if take < want then 1 else 0)
    {
      hide Holds, Geometry, Add32, Sub32;
      UsedIsExact(cap, taken, taken + |queue|);
      var take := Min(want, Sub32(tail, head));
      out := Drain(take);
      out := Pad(out, want);
      if take < want {
        underruns := underruns + 1;
      }
      HoldsLess(slots[..], taken, queue, take);
      Advanced(taken, take);
      head := Add32(head, take);
      taken := taken + take;
      queue := queue[take..];
    }

    /** The drain loop of Render. */
    method Drain(take: nat) returns (out: seq<Frame>)
      requires Valid() && take <= |queue|
      ensures out == queue[..take]
    {
      hide Holds, Geometry, Index;
      out := [];
      var i := 0;
      while i < take
        invariant 0 <= i <= take && out == queue[..i]
      {
        IndexIsSlot(cap, taken, i);
        HeldFrame(slots[..], taken, queue, i);
        out := out + [slots[Index(cap, head, i)]];
        i := i + 1;
      }
    }
  }

  /** Silence for the frames that could not be supplied. */
  method Pad(drained: seq<Frame>, want: nat) returns (out: seq<Frame>)
    requires |drained| <= want
    ensures |out| == want && out[..|drained|] == drained
    ensures forall j | |drained| <= j < want :: out[j] == SILENCE
  {
    out := drained;
    while |out| < want
      invariant |drained| <= |out| <= want && out[..|drained|] == drained
      invariant forall j | |drained| <= j < |out| :: out[j] == SILENCE
    {
      out := out + [SILENCE];
    }
  }

  lemma FourIsLeast(cap: nat)
    requires Geometry(cap) && 3 <= cap
    ensures 4 <= cap
  {
    assert Pow2(1) == 2 && Pow2(2) == 4;
    var k: nat :| 1 <= k <= 31 && cap == Pow2(k);
    if k >= 2 { Pow2Mono(2, k); }
  }

  /** ca_open(4) makes room for 7 frames: 5 is no power of two, and 8 is the next one. */
  lemma FourFramesGetSeven(cap: nat)
    requires OpenedWith(4, cap)
    ensures cap - 1 == 7
  {
    assert Pow2(2) == 4 && Pow2(3) == 8 && Geometry(8);
    var k: nat :| 1 <= k <= 31 && cap == Pow2(k);
    if k <= 2 { Pow2Mono(k, 2); } else { Pow2Mono(3, k); }
  }
}
