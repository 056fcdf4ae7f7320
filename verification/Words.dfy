/** Machine words of the target: two's complement wrap-around, C division, powers of two. */
module Words {

  const TWO16: int := 0x1_0000
  const TWO31: int := 0x8000_0000
  const TWO32: int := 0x1_0000_0000
  const TWO63: int := 0x8000_0000_0000_0000
  const TWO64: int := 0x1_0000_0000_0000_0000

  predicate FitsS16(x: int) { -0x8000 <= x < 0x8000 }

  predicate FitsS32(x: int) { -TWO31 <= x < TWO31 }

  predicate FitsS64(x: int) { -TWO63 <= x < TWO63 }

  lemma MulLe(a: int, b: int, m: int)
    requires a <= b && m >= 0
    ensures a * m <= b * m
  {
  }

  lemma MulAssociates(a: int, b: int, c: int)
    ensures a * (b * c) == a * b * c
  {
  }

  lemma ModuloShift(x: int, m: int, k: int)
    requires m > 0 && k * m <= x < (k + 1) * m
    ensures x % m == x - k * m && x / m == k
  {
    var q := x / m;
    if q < k {
      MulLe(q + 1, k, m);
    } else if q > k {
      MulLe(k + 1, q, m);
    }
  }

  /** The value a signed 16-bit word holds after `x` is stored in it. */
  function Wrap16(x: int): (r: int)
    ensures FitsS16(r) && (FitsS16(x) ==> r == x)
  {
    (x + 0x8000) % TWO16 - 0x8000
  }

  /** The value a signed 32-bit word holds after `x` is stored in it. */
  function Wrap32(x: int): (r: int)
    ensures FitsS32(r) && (FitsS32(x) ==> r == x)
    ensures TWO31 <= x < TWO32 + TWO31 ==> r == x - TWO32
    ensures -TWO32 - TWO31 <= x < -TWO31 ==> r == x + TWO32
  {
    (x + TWO31) % TWO32 - TWO31
  }

  lemma WrapIs(x: int, r: int, k: int)
    requires FitsS32(r) && x == r + k * TWO32
    ensures Wrap32(x) == r
  {
    ModuloShift(x + TWO31, TWO32, k);
  }

  /** Wrapping parts of a sum on the way changes nothing in the end. */
  lemma WrapOfSum(a: int, b: int)
    ensures Wrap32(Wrap32(a) + Wrap32(b)) == Wrap32(a + b)
  {
    var p, q := (a + TWO31) / TWO32, (b + TWO31) / TWO32;
    var c := Wrap32(a) + Wrap32(b);
    var k := (c + TWO31) / TWO32;
    assert a + b == Wrap32(c) + (p + q + k) * TWO32;
    WrapIs(a + b, Wrap32(c), p + q + k);
  }

  /** The value a signed 64-bit word holds after `x` is stored in it. */
  function Wrap64(x: int): (r: int)
    ensures FitsS64(r) && (FitsS64(x) ==> r == x)
    ensures TWO63 <= x < TWO64 + TWO63 ==> r == x - TWO64
  {
    (x + TWO63) % TWO64 - TWO63
  }

  function Abs(x: int): nat { if x < 0 then -x else x }

  function Max(a: int, b: int): int { if a > b then a else b }

  function Min(a: int, b: int): int { if a > b then b else a }

  /** C's `/` on signed operands truncates toward zero. */
  function Quot(a: int, b: int): (q: int)
    requires b > 0
  {
    if a >= 0 then a / b else -((-a) / b)
  }

  /** C's `%` on signed operands takes the sign of the dividend. */
  function Rem(a: int, b: int): (r: int)
    requires b > 0
  {
    a - Quot(a, b) * b
  }

  function Pow2(k: nat): (p: nat)
    ensures p >= 1
  {
    if k == 0 then 1 else 2 * Pow2(k - 1)
  }

  lemma {:induction false} Pow2Add(a: nat, b: nat)
    ensures Pow2(a + b) == Pow2(a) * Pow2(b)
  {
    if b > 0 {
      Pow2Add(a, b - 1);
    }
  }

  lemma {:induction false} Pow2Monotone(a: nat, b: nat)
    requires a <= b
    ensures Pow2(a) <= Pow2(b)
  {
    if a < b {
      Pow2Monotone(a, b - 1);
    }
  }

  lemma Pow2Values()
    ensures Pow2(1) == 2 && Pow2(2) == 4 && Pow2(4) == 16 && Pow2(8) == 256 && Pow2(16) == TWO16
    ensures Pow2(29) == 0x2000_0000 && Pow2(30) == 0x4000_0000 && Pow2(31) == TWO31 && Pow2(32) == TWO32
  {
    assert Pow2(4) == 16;
    Pow2Add(4, 4);
    Pow2Add(8, 8);
    Pow2Add(16, 16);
  }

  /** Arithmetic right shift. */
  function ShiftRight(x: int, k: nat): int { x / Pow2(k) }

  /** Floor of the binary logarithm of a positive number. */
  function FloorLog(n: int): (r: nat)
    requires n >= 1
    ensures Pow2(r) <= n < Pow2(r + 1)
    decreases n
  {
    if n < 2 then 0 else 1 + FloorLog(n / 2)
  }

  lemma FloorLogUnique(n: int, r: nat)
    requires n >= 1 && Pow2(r) <= n < Pow2(r + 1)
    ensures r == FloorLog(n)
  {
    var q := FloorLog(n);
    if q < r {
      Pow2Monotone(q + 1, r);
    } else if q > r {
      Pow2Monotone(r + 1, q);
    }
  }

  lemma FloorLogMonotone(m: int, n: int)
    requires 1 <= m <= n
    ensures FloorLog(m) <= FloorLog(n)
  {
    if FloorLog(m) > FloorLog(n) {
      Pow2Monotone(FloorLog(n) + 1, FloorLog(m));
    }
  }

  /** A quotient is the only number whose multiple bounds the dividend. */
  lemma DivUnique(x: int, m: int, q: int)
    requires m > 0 && q * m <= x < (q + 1) * m
    ensures x / m == q
  {
    ModuloShift(x, m, q);
  }
}
