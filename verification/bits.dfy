/** Machine arithmetic shared by the modules: bitwise masks and wrapped words. */
module Bits {
  const WORD32: nat := 0x1_0000_0000
  const WORD64: nat := 0x1_0000_0000_0000_0000

  /** Bitwise conjunction, bit by bit. */
  function And(x: nat, y: nat): (r: nat)
    ensures r <= x && r <= y
  {
    if x == 0 || y == 0 then 0 else (if x % 2 == 1 && y % 2 == 1 then 1 else 0) + 2 * And(x / 2, y / 2)
  }

  function Pow2(k: nat): (p: nat)
    ensures p >= 1
  {
    if k == 0 then 1 else 2 * Pow2(k - 1)
  }

  lemma {:induction false} ModStep(x: nat, m: nat)
    requires m >= 1
    ensures x % (2 * m) == x % 2 + 2 * ((x / 2) % m)
  {
    var h := x / 2;
    var q, r := h / m, h % m;
    assert h == q * m + r;
    var b := x % 2;
    assert x == 2 * h + b;
    assert x == q * (2 * m) + (b + 2 * r) by {
      assert 2 * (q * m) == q * (2 * m);
    }
    DivModUnique(x, 2 * m, q, b + 2 * r);
  }

  lemma DivModUnique(x: int, m: int, q: int, r: int)
    requires 0 <= r < m && x == q * m + r
    ensures x / m == q && x % m == r
  {
    var q', r' := x / m, x % m;
    assert x == q' * m + r';
    assert (q - q') * m == r' - r;
    if q > q' {
      MulMono(1, q - q', m);
    } else if q < q' {
      MulMono(q - q', -1, m);
    }
  }

  lemma MulMono(a: int, b: int, m: int)
    requires a <= b && 0 <= m
    ensures a * m <= b * m
  {
  }

  lemma AndOdd(x: nat, y: nat)
    ensures And(x, 2 * y + 1) == x % 2 + 2 * And(x / 2, y)
  {
    assert (2 * y + 1) % 2 == 1 && (2 * y + 1) / 2 == y;
  }

  lemma MaskStep(x: nat, m: nat)
    requires m >= 1 && And(x / 2, m - 1) == (x / 2) % m
    ensures And(x, 2 * m - 1) == x % (2 * m)
  {
    hide And;
    ModStep(x, m);
    AndOdd(x, m - 1);
    assert 2 * (m - 1) + 1 == 2 * m - 1;
  }

  /** Masking with 2^k - 1 is reduction modulo 2^k. */
  lemma {:induction false} MaskIsMod(x: nat, k: nat)
    ensures And(x, Pow2(k) - 1) == x % Pow2(k)
    decreases k
  {
    hide And;
    if k == 0 {
      AndZero(x);
    } else {
      MaskIsMod(x / 2, k - 1);
      MaskStep(x, Pow2(k - 1));
    }
  }

  lemma AndZero(x: nat)
    ensures And(x, 0) == 0
  {
  }

  /** Adding before or after the reduction to a divisor of the word size is the same. */
  lemma WrapMod(x: nat, i: nat, w: nat, c: nat, d: nat)
    requires c >= 1 && w == c * d && d >= 1
    ensures w >= 1 && ((x % w + i) % w) % c == (x + i) % c
  {
    assert w >= 1 by { MulMono(1, d, c); }
    var y := x % w + i;
    var q1 := x / w;
    assert x == q1 * w + x % w;
    var q2 := y / w;
    assert y == q2 * w + y % w;
    assert x + i == (q1 + q2) * w + y % w by {
      assert (q1 + q2) * w == q1 * w + q2 * w;
    }
    var q3 := (y % w) / c;
    var r := (y % w) % c;
    assert y % w == q3 * c + r;
    assert x + i == ((q1 + q2) * d + q3) * c + r by {
      assert (q1 + q2) * w == (q1 + q2) * d * c;
      assert ((q1 + q2) * d + q3) * c == (q1 + q2) * d * c + q3 * c;
    }
    DivModUnique(x + i, c, (q1 + q2) * d + q3, r);
  }

  /** Free-running counters: the wrapped difference is the true one while it fits a word. */
  lemma WrappedDifference(t: nat, h: nat, w: nat)
    requires w >= 1 && h <= t && t - h < w
    ensures (t % w - h % w) % w == t - h
  {
    var qt, qh := t / w, h / w;
    assert t == qt * w + t % w && h == qh * w + h % w;
    assert t % w - h % w == (qh - qt) * w + (t - h) by {
      assert (qh - qt) * w == qh * w - qt * w;
    }
    DivModUnique(t % w - h % w, w, qh - qt, t - h);
  }

  predicate Bit(w: nat, j: nat)
  {
    if j == 0 then w % 2 == 1 else Bit(w / 2, j - 1)
  }

  /** w | (1 << b) */
  function SetBit(w: nat, b: nat): nat
  {
    if b == 0 then w - w % 2 + 1 else w % 2 + 2 * SetBit(w / 2, b - 1)
  }

  lemma {:induction false} SetBitSets(w: nat, b: nat, j: nat)
    ensures Bit(SetBit(w, b), j) <==> Bit(w, j) || j == b
  {
    if b == 0 {
      assert (w - w % 2 + 1) / 2 == w / 2;
    } else {
      assert SetBit(w, b) / 2 == SetBit(w / 2, b - 1);
      if j > 0 { SetBitSets(w / 2, b - 1, j - 1); }
    }
  }

  lemma {:induction false} SetBitFits(w: nat, b: nat, k: nat)
    requires b < k && w < Pow2(k)
    ensures SetBit(w, b) < Pow2(k)
  {
    var p := Pow2(k - 1);
    assert Pow2(k) == 2 * p;
    Halved(w, p);
    if b > 0 { SetBitFits(w / 2, b - 1, k - 1); }
  }

  lemma Halved(w: nat, p: nat)
    requires w < 2 * p
    ensures w / 2 < p && w - w % 2 + 1 < 2 * p
    ensures forall h: nat | h < p :: w % 2 + 2 * h < 2 * p
  {
  }

  lemma SetBit32(w: nat, b: nat)
    requires b < 32 && w < WORD32
    ensures SetBit(w, b) < WORD32
  {
    Pow2Of32();
    SetBitFits(w, b, 32);
  }

  lemma Pow2Of32()
    ensures Pow2(32) == WORD32 && Pow2(31) == 0x8000_0000
  {
    assert Pow2(8) == 256;
    assert Pow2(16) == 65536;
    assert Pow2(24) == 0x1000000;
    assert Pow2(32) == 2 * Pow2(31);
  }

  lemma {:induction false} Pow2Mono(a: nat, b: nat)
    requires a <= b
    ensures Pow2(a) <= Pow2(b)
    decreases b
  {
    if a < b { Pow2Mono(a, b - 1); }
  }
}
