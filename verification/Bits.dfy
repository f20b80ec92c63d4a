/** Bit masks over natural numbers: the three uses the library makes of them. */
module Bits {

  function Pow2(k: nat): (n: nat)
    ensures n > 0
  {
    if k == 0 then 1 else 2 * Pow2(k - 1)
  }

  /** Bitwise and. */
  function And(a: nat, b: nat): (r: nat)
    ensures r <= a && r <= b
    decreases a + b
  {
    if a == 0 || b == 0 then 0 else 2 * And(a / 2, b / 2) + (if a % 2 == 1 && b % 2 == 1 then 1 else 0)
  }

  ghost predicate IsPow2(n: nat) {
    exists k: nat :: n == Pow2(k)
  }

  lemma SmallMultiple(x: int, m: int)
    requires m > 0 && -m < x * m < m
    ensures x == 0
  {
    assert x >= 1 ==> x * m >= m;
    assert x <= -1 ==> x * m <= -m;
  }

  lemma Difference(a: int, b: int, m: int)
    ensures (a - b) * m == a * m - b * m
  {
  }

  lemma Remainder(a: nat, m: nat, q: nat, r: nat)
    requires m > 0 && a == q * m + r && r < m
    ensures a / m == q && a % m == r
  {
    var d, e := a / m, a % m;
    assert a == d * m + e;
    Difference(d, q, m);
    SmallMultiple(d - q, m);
  }

  function Mod(a: nat, m: nat): (r: nat)
    requires m > 0
    ensures r < m
  {
    a % m
  }

  lemma Halve(a: nat, m: nat)
    requires m > 0
    ensures Mod(a, 2 * m) == 2 * Mod(a / 2, m) + a % 2
  {
    var q, r := a / 2 / m, a / 2 % m;
    assert a == 2 * (q * m + r) + a % 2;
    assert 2 * (q * m) == q * (2 * m);
    Remainder(a, 2 * m, q, 2 * r + a % 2);
  }

  lemma AndEven(x: nat, n: nat)
    ensures And(x, 2 * n) == 2 * And(x / 2, n)
  {
    assert 2 * n / 2 == n && 2 * n % 2 == 0;
  }

  lemma AndOdd(x: nat, n: nat)
    ensures And(x, 2 * n + 1) == 2 * And(x / 2, n) + x % 2
  {
    assert (2 * n + 1) / 2 == n && (2 * n + 1) % 2 == 1;
  }

  /** `h & (capacity - 1)` is `h % capacity` when the capacity is a power of two. */
  lemma {:induction false} MaskIsModulo(h: nat, k: nat)
    ensures And(h, Pow2(k) - 1) == Mod(h, Pow2(k))
    decreases k
  {
    if k > 0 {
      hide And, Mod;
      var m := Pow2(k - 1);
      Halve(h, m);
      MaskIsModulo(h / 2, k - 1);
      AndOdd(h, m - 1);
    }
  }

  /** `x & ~(align - 1)` in `w` bits rounds down to a multiple of the alignment. */
  lemma {:induction false} ClearIsRoundDown(x: nat, k: nat, w: nat)
    requires k <= w && x < Pow2(w)
    ensures Pow2(k) <= Pow2(w) && And(x, Pow2(w) - Pow2(k)) == x - Mod(x, Pow2(k))
    decreases w
  {
    if k == 0 {
      ClearNothing(x, w);
    } else {
      ClearIsRoundDown(x / 2, k - 1, w - 1);
      ClearStep(x, Pow2(k - 1), Pow2(w - 1));
    }
  }

  lemma ClearStep(x: nat, p: nat, q: nat)
    requires 0 < p <= q && And(x / 2, q - p) == x / 2 - Mod(x / 2, p)
    ensures And(x, 2 * q - 2 * p) == x - Mod(x, 2 * p)
  {
    hide And, Mod;
    Halve(x, p);
    AndEven(x, q - p);
  }

  lemma ClearNothing(x: nat, w: nat)
    requires x < Pow2(w)
    ensures Pow2(0) <= Pow2(w) && And(x, Pow2(w) - Pow2(0)) == x - Mod(x, Pow2(0))
  {
    Monotone(0, w);
    AllOnes(x, w);
  }

  lemma {:induction false} Monotone(j: nat, k: nat)
    requires j <= k
    ensures Pow2(j) <= Pow2(k)
    decreases k
  {
    if j < k { Monotone(j, k - 1); }
  }

  lemma {:induction false} PowSum(j: nat, k: nat)
    ensures Pow2(j + k) == Pow2(j) * Pow2(k)
    decreases k
  {
    if k > 0 {
      PowSum(j, k - 1);
      assert Pow2(j + k) == 2 * (Pow2(j) * Pow2(k - 1)) == Pow2(j) * (2 * Pow2(k - 1));
    }
  }

  const SIZE_MAX: nat := 0xFFFF_FFFF_FFFF_FFFF

  lemma Pow2At7()
    ensures Pow2(7) == 128
  {
  }

  lemma Pow2At64()
    ensures Pow2(64) == SIZE_MAX + 1 == 2 * Pow2(63)
  {
    hide Pow2;
    Pow2At7();
    DoublePow2(64);
    PowSum(7, 7);
    PowSum(14, 7);
    PowSum(21, 21);
    PowSum(42, 21);
  }

  lemma DoublePow2(k: nat)
    requires k > 0
    ensures Pow2(k) == 2 * Pow2(k - 1)
  {
  }

  lemma {:induction false} AllOnes(x: nat, w: nat)
    requires x < Pow2(w)
    ensures And(x, Pow2(w) - 1) == x
    decreases w
  {
    if w > 0 {
      hide And;
      AllOnes(x / 2, w - 1);
      AndOdd(x, Pow2(w - 1) - 1);
    }
  }

  /** `n & (n - 1)` is zero exactly for powers of two. */
  lemma {:induction false} PowerTest(n: nat)
    requires n > 0
    ensures And(n, n - 1) == 0 <==> IsPow2(n)
    decreases n
  {
    if n == 1 {
      assert n == Pow2(0);
    } else if n % 2 == 0 {
      PowerTest(n / 2);
      assert (n - 1) / 2 == n / 2 - 1;
      if IsPow2(n / 2) {
        var k: nat :| n / 2 == Pow2(k);
        assert n == Pow2(k + 1);
      }
      if IsPow2(n) {
        var k: nat :| n == Pow2(k);
        assert k > 0 && n / 2 == Pow2(k - 1);
      }
    } else {
      assert (n - 1) / 2 == n / 2 && n / 2 > 0;
      Itself(n / 2);
      OddIsNoPower(n);
    }
  }

  lemma OddIsNoPower(n: nat)
    requires n > 1 && n % 2 == 1
    ensures !IsPow2(n)
  {
    forall k: nat ensures n != Pow2(k) {
      if k > 0 { assert Pow2(k) % 2 == 0; }
    }
  }

  lemma {:induction false} Itself(n: nat)
    ensures And(n, n) == n
    decreases n
  {
    if n > 0 {
      Itself(n / 2);
      assert n % 2 == 0 || n % 2 == 1;
    }
  }
}
