/** Bitwise operations on unbounded integers, and powers of two. */
module Bits {

  function Pow2(k: nat): (r: nat)
    ensures r > 0
  {
    if k == 0 then 1 else 2 * Pow2(k - 1)
  }

  function Shl(x: nat, k: nat): nat { x * Pow2(k) }

  function BitOr(a: nat, b: nat): nat
    decreases a + b
  {
    if a + b == 0 then 0 else 2 * BitOr(a / 2, b / 2) + if a % 2 == 1 || b % 2 == 1 then 1 else 0
  }

  /** `x & mask`: x is read in two's complement, with as many sign bits as the mask needs. */
  function BitAnd(x: int, mask: nat): nat
    decreases mask
  {
    if mask == 0 then 0 else 2 * BitAnd(x / 2, mask / 2) + if x % 2 == 1 && mask % 2 == 1 then 1 else 0
  }

  lemma {:induction false} OrWithZero(b: nat)
    ensures BitOr(0, b) == b
    decreases b
  {
    if b > 0 { OrWithZero(b / 2); }
  }

  lemma DoubledOr(x: nat, y: nat, bit: nat)
    requires bit < 2
    ensures BitOr(2 * x + bit, 2 * y) == 2 * BitOr(x, y) + bit
  {
    if x == 0 && y == 0 { OrWithZero(0); assert bit == 1 ==> BitOr(1, 0) == 2 * BitOr(0, 0) + 1; }
    assert (2 * x + bit) / 2 == x && (2 * x + bit) % 2 == bit;
    assert (2 * y) / 2 == y && (2 * y) % 2 == 0;
  }

  /** Fields that do not overlap are added. */
  lemma {:induction false} OrOfDisjoint(a: nat, b: nat, k: nat)
    requires a < Pow2(k)
    ensures BitOr(a, Shl(b, k)) == a + Shl(b, k)
    decreases k
  {
    if k == 0 {
      OrWithZero(b);
    } else {
      var half := Shl(b, k - 1);
      assert Shl(b, k) == 2 * half by { ShlNext(b, k - 1); }
      OrOfDisjoint(a / 2, b, k - 1);
      DoubledOr(a / 2, half, a % 2);
    }
  }

  lemma ShlOne(k: nat)
    ensures Shl(1, k) == Pow2(k)
  {
  }

  lemma ShlNext(b: nat, k: nat)
    ensures Shl(b, k + 1) == 2 * Shl(b, k)
  {
    assert b * (2 * Pow2(k)) == 2 * (b * Pow2(k));
  }

  function Mod(x: int, n: nat): nat
    requires n > 0
  {
    x % n
  }

  /** Masking keeps the remainder, also of negative numbers. */
  lemma {:induction false} MaskIsRemainder(x: int, w: nat)
    ensures BitAnd(x, Pow2(w) - 1) == Mod(x, Pow2(w))
    decreases w
  {
    if w == 0 {
      assert Mod(x, 1) == 0;
    } else {
      var half := Pow2(w - 1);
      MaskIsRemainder(x / 2, w - 1);
      RemainderOfHalves(x, half);
      AndHalves(x, half);
      hide Mod, BitAnd;
    }
  }

  lemma AndHalves(x: int, half: nat)
    requires half > 0
    ensures BitAnd(x, 2 * half - 1) == 2 * BitAnd(x / 2, half - 1) + x % 2
  {
    assert (2 * half - 1) / 2 == half - 1 && (2 * half - 1) % 2 == 1;
  }

  lemma RemainderOfHalves(x: int, half: nat)
    requires half > 0
    ensures Mod(x, 2 * half) == 2 * Mod(x / 2, half) + x % 2
  {
    var q, r := (x / 2) / half, (x / 2) % half;
    assert x / 2 == half * q + r;
    Rearrange(half, q, r, x / 2, x % 2);
    RemainderIs(x, 2 * half, q, 2 * r + x % 2);
  }

  lemma Rearrange(half: nat, q: int, r: nat, h: int, bit: nat)
    requires h == half * q + r
    ensures 2 * h + bit == (2 * half) * q + (2 * r + bit)
  {
  }

  lemma RemainderIs(x: int, n: nat, q: int, r: nat)
    requires r < n && x == n * q + r
    ensures Mod(x, n) == r
  {
    var p, s := x / n, x % n;
    var np := n * p;
    assert x == np + s;
    Difference(n, p, q);
    SmallMultiple(n, p - q, r - s);
  }

  lemma Difference(n: nat, p: int, q: int)
    ensures n * (p - q) == n * p - n * q
  {
  }

  lemma SmallMultiple(n: int, d: int, e: int)
    requires n * d == e && -n < e < n
    ensures d == 0 && e == 0
  {
    MultipleAtLeast(n, d);
  }

  lemma MultipleAtLeast(n: int, d: int)
    requires n > 0
    ensures (d > 0 ==> n * d >= n) && (d < 0 ==> n * d <= -n)
  {
  }

  lemma {:induction false} Pow2Add(a: nat, b: nat)
    ensures Pow2(a + b) == Pow2(a) * Pow2(b)
    decreases b
  {
    if b > 0 {
      Pow2Add(a, b - 1);
      var p, q := Pow2(a), Pow2(b - 1);
      assert Pow2(a + b) == 2 * Pow2(a + (b - 1)) && Pow2(b) == 2 * q;
      hide Pow2;
      DoubleFactor(p, q);
    }
  }

  lemma DoubleFactor(p: nat, q: nat)
    ensures p * (2 * q) == 2 * (p * q)
  {
  }

  lemma {:induction false} Pow2Monotone(a: nat, b: nat)
    requires a <= b
    ensures Pow2(a) <= Pow2(b)
    decreases b
  {
    if a < b { Pow2Monotone(a, b - 1); }
  }

  // ---------------------------------------------------------------------------------------
  // Powers of two of any sign
  // ---------------------------------------------------------------------------------------

  function P(n: int): (r: real)
    ensures r > 0.0
    decreases if n >= 0 then n else -n
  {
    if n == 0 then 1.0 else if n > 0 then 2.0 * P(n - 1) else P(n + 1) / 2.0
  }

  lemma PNext(n: int)
    ensures P(n + 1) == 2.0 * P(n)
  {
    if n < 0 {
      var p := P(n + 1);
      assert P(n) == p / 2.0;
      hide P;
      assert 2.0 * (p / 2.0) == p;
    }
  }

  function Times(w: nat, p: real): real { w as real * p }

  lemma TimesDouble(w: nat, p: real)
    ensures Times(2 * w, p) == 2.0 * Times(w, p) == Times(w, 2.0 * p)
  {
  }

  lemma TimesMonotone(a: nat, b: nat, p: real)
    requires a <= b && p > 0.0
    ensures Times(a, p) <= Times(b, p) && (a < b ==> Times(a, p) < Times(b, p))
  {
  }

  /** Moving a power of two from the exponent to the significand. */
  lemma {:induction false} TimesShift(w: nat, n: int, k: nat)
    ensures Times(w, P(n + k)) == Times(Shl(w, k), P(n))
    decreases k
  {
    if k == 0 {
      assert Shl(w, 0) == w;
    } else {
      TimesShift(w, n, k - 1);
      PNext(n + (k - 1));
      ShlNext(w, k - 1);
      hide P, Shl, Times;
      assert n + (k - 1) + 1 == n + k;
      TimesDouble(w, P(n + (k - 1)));
      TimesDouble(Shl(w, k - 1), P(n));
    }
  }
}
