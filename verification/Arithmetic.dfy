/** Powers of two and the few facts about division that the address arithmetic rests on. */
module Arithmetic {

  function Pow2(n: nat): (r: nat)
    ensures r >= 1
  {
    if n == 0 then 1 else 2 * Pow2(n - 1)
  }

  lemma {:induction false} Pow2Adds(a: nat, b: nat)
    ensures Pow2(a + b) == Pow2(a) * Pow2(b)
  {
    if a == 0 {
      assert Pow2(0) == 1;
    } else {
      Pow2Adds(a - 1, b);
      assert Pow2(a + b) == 2 * Pow2(a - 1 + b);
    }
  }

  lemma {:induction false} Pow2Monotone(a: nat, b: nat)
    requires a <= b
    ensures Pow2(a) <= Pow2(b)
  {
    if a < b {
      Pow2Monotone(a, b - 1);
    }
  }

  /** The powers that appear as literals in the source. */
  lemma Pow2Values()
    ensures Pow2(4) == 0x10 && Pow2(5) == 0x20 && Pow2(6) == 0x40 && Pow2(16) == 0x1_0000
    ensures Pow2(20) == 0x10_0000 && Pow2(24) == 0x100_0000 && Pow2(32) == 0x1_0000_0000
  {
    assert Pow2(4) == 16 by { assert Pow2(2) == 4; }
    Pow2Adds(4, 1);
    Pow2Adds(4, 2);
    Pow2Adds(4, 4);
    Pow2Adds(8, 8);
    Pow2Adds(16, 4);
    Pow2Adds(16, 8);
    Pow2Adds(16, 16);
    assert Pow2(1) == 2 && Pow2(2) == 4;
  }

  lemma MulMonotone(d: int, a: int, b: int)
    requires d >= 0 && a <= b
    ensures d * a <= d * b
  {
    assert d * (b - a) >= 0;
    assert d * b == d * a + d * (b - a);
  }

  /** Quotient and remainder are the only pair with 0 <= r < d. */
  lemma DivModUnique(x: int, d: int, q: int, r: int)
    requires d > 0 && 0 <= r < d && x == d * q + r
    ensures x / d == q && x % d == r
  {
    var q', r' := x / d, x % d;
    assert x == d * q' + r';
    if q > q' {
      MulMonotone(d, q' + 1, q);
    } else if q < q' {
      MulMonotone(d, q + 1, q');
    }
  }

  /** Rounding a down to a multiple of s gives b exactly for the s values from b on. */
  lemma AlignedInterval(a: int, b: int, s: int)
    requires s > 0 && b % s == 0
    ensures a - a % s == b <==> b <= a < b + s
  {
    if b <= a < b + s {
      DivModUnique(a, s, b / s, a - b);
    }
  }

  /** A multiple of s below s * n leaves room for s more. */
  lemma AlignedEnd(b: int, s: int, n: int, t: int)
    requires s > 0 && b % s == 0 && t == n * s && b < t
    ensures b + s <= t
  {
    var k := b / s;
    assert b == s * k;
    if k >= n {
      MulMonotone(s, n, k);
    } else {
      MulMonotone(s, k + 1, n);
      assert s * (k + 1) == s * k + s;
    }
  }

  /** Rounding down to a multiple of s first does not change rounding down to a multiple of k * s. */
  lemma RoundTwice(a: int, s: int, k: int, t: int)
    requires s > 0 && k > 0 && t == k * s
    ensures t > 0
    ensures (a - a % s) - (a - a % s) % t == a - a % t
  {
    assert t > 0 by { MulMonotone(s, 1, k); }
    var u, r := a / t, a % t;
    var v, w := r / s, r % s;
    assert a == t * u + r && r == s * v + w;
    assert a % s == w by { RoundSplit(a, s, k, u, v, w); }
    assert 0 <= s * v <= r by {
      assert v >= 0;
      MulMonotone(s, 0, v);
    }
    DivModUnique(a - w, t, u, s * v);
  }

  lemma RoundSplit(a: int, s: int, k: int, u: int, v: int, w: int)
    requires s > 0 && 0 <= w < s && a == (k * s) * u + (s * v + w)
    ensures a % s == w
  {
    assert (k * s) * u == s * (k * u);
    assert s * (k * u + v) == s * (k * u) + s * v;
    DivModUnique(a, s, k * u + v, w);
  }

  /** Steps of s from a multiple of n * s stay multiples of s. */
  lemma AlignedSteps(b: int, s: int, n: int, j: int)
    requires s > 0 && n > 0 && n * s > 0 && b % (n * s) == 0 && 0 <= j < n
    ensures (b + j * s) % s == 0
    ensures 0 <= j * s && j * s + s <= n * s
  {
    var m := b / (n * s);
    assert b == (n * s) * m;
    assert (n * s) * m == s * (n * m);
    assert s * (n * m + j) == s * (n * m) + s * j;
    DivModUnique(b + j * s, s, n * m + j, 0);
    MulMonotone(s, 0, j);
    MulMonotone(s, j + 1, n);
    assert s * (j + 1) == s * j + s;
  }

  /** Which of n slots of width s an offset falls into. */
  lemma SlotOf(d: int, s: int, n: int)
    requires s > 0 && 0 <= d < n * s
    ensures 0 <= d / s < n
    ensures (d / s) * s <= d < (d / s) * s + s
  {
    var j := d / s;
    assert d == s * j + d % s;
    if j >= n {
      MulMonotone(s, n, j);
    }
    assert j * s == s * j;
  }
}
