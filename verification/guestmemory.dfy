/** The guest's memory: big-endian bytes, read and written a 32-bit word at a time. */
module GuestMemory {
  import opened Bits

  /** Bytes by address; a byte never written reads as 0. */
  type Memory = map<int, int>

  function Byte(m: Memory, a: int): (b: nat)
    ensures b < 256
  {
    if a in m && 0 <= m[a] < 256 then m[a] else 0
  }

  function Get(m: Memory, a: int): (w: nat)
    ensures w < WORD32
  {
    Byte(m, a) * 0x1000000 + Byte(m, a + 1) * 0x10000 + Byte(m, a + 2) * 0x100 + Byte(m, a + 3)
  }

  function Put(m: Memory, a: int, w: nat): Memory
    requires w < WORD32
  {
    m[a := w / 0x1000000][a + 1 := w / 0x10000 % 0x100][a + 2 := w / 0x100 % 0x100][a + 3 := w % 0x100]
  }

  /** Two words that share no byte. */
  predicate Clear(a: int, b: int)
  {
    a + 4 <= b || b + 4 <= a
  }

  lemma Digits(w: nat)
    requires w < WORD32
    ensures w == w / 0x1000000 * 0x1000000 + w / 0x10000 % 0x100 * 0x10000 + w / 0x100 % 0x100 * 0x100 + w % 0x100
    ensures w / 0x1000000 < 0x100
  {
    var h, q := w / 0x10000, w / 0x100;
    assert q == w / 0x100 && q / 0x100 == h;
    assert h / 0x100 == w / 0x1000000;
  }

  /** A word written is the word read back, and no byte outside it changes. */
  lemma PutGet(m: Memory, a: int, w: nat)
    requires w < WORD32
    ensures Get(Put(m, a, w), a) == w
    ensures forall b: int | Clear(a, b) :: Get(Put(m, a, w), b) == Get(m, b)
    ensures forall b: int | b < a || a + 4 <= b :: Byte(Put(m, a, w), b) == Byte(m, b)
  {
    Digits(w);
    var r := Put(m, a, w);
    assert Byte(r, a) == w / 0x1000000 && Byte(r, a + 1) == w / 0x10000 % 0x100;
    assert Byte(r, a + 2) == w / 0x100 % 0x100 && Byte(r, a + 3) == w % 0x100;
  }

  /** Memories that agree on the four bytes of a word agree on the word. */
  lemma GetOfBytes(m: Memory, m': Memory, a: int)
    requires forall b | a <= b < a + 4 :: Byte(m', b) == Byte(m, b)
    ensures Get(m', a) == Get(m, a)
  {
  }

  /** ln_Pri and the like: a byte read as int8_t. */
  function Signed(b: nat): int
    requires b < 256
  {
    if b < 128 then b else b - 256
  }

  /** It is the value congruent to the byte in the range of an int8_t. */
  lemma SignedIs(b: nat)
    requires b < 256
    ensures -128 <= Signed(b) < 128 && (Signed(b) - b) % 256 == 0
  {
  }

  /** A signed value stored as uint32_t. */
  function Unsigned(v: int): (w: nat)
    requires -0x8000_0000 <= v < 0x8000_0000
    ensures w < WORD32
  {
    if v < 0 then v + WORD32 else v
  }

  /** It is the word congruent to the value. */
  lemma UnsignedIs(v: int)
    requires -0x8000_0000 <= v < 0x8000_0000
    ensures (Unsigned(v) - v) % WORD32 == 0
  {
  }

  /** A word inside a span is itself inside guest memory. */
  lemma WordInSpan(g: Guest, a: nat, n: nat, o: nat)
    requires g.Span(a, n) && o + 4 <= n
    ensures g.Span(a + o, 4)
  {
  }

  class Guest {
    var ram: Memory
    const origin: nat
    const size: nat

    constructor (o: nat, n: nat)
      requires o + n <= WORD32
      ensures origin == o && size == n && ram == map[]
    {
      origin, size, ram := o, n, map[];
    }

    /** guest_span_ok */
    predicate Span(a: nat, n: nat)
    {
      origin <= a && a + n <= origin + size
    }

    /** gread32: 0 outside guest memory. */
    function Read(a: nat): (w: nat)
      reads this
      ensures w == (if Span(a, 4) then Get(ram, a) else 0) && w < WORD32
    {
      if Span(a, 4) then Get(ram, a) else 0
    }

    /** gwrite32: nothing happens outside guest memory. */
    method Write(a: nat, w: nat)
      requires w < WORD32
      modifies this`ram
      ensures ram == if Span(a, 4) then Put(old(ram), a, w) else old(ram)
      ensures Span(a, 4) ==> Get(ram, a) == w
      ensures forall b: int | Clear(a, b) :: Get(ram, b) == Get(old(ram), b)
      ensures forall b: int | b < a || a + 4 <= b :: Byte(ram, b) == Byte(old(ram), b)
    {
      PutGet(ram, a, w);
      if Span(a, 4) {
        ram := Put(ram, a, w);
      }
    }
  }
}
