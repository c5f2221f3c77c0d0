/** Powers and modular arithmetic used by the key exchange and by the byte encodings. */
module Arith {

  function Pow(b: int, e: nat): int {
    if e == 0 then 1 else b * Pow(b, e - 1)
  }

  lemma {:induction false} PowAdd(b: int, d: nat, e: nat)
    ensures Pow(b, d + e) == Pow(b, d) * Pow(b, e)
  {
    if d == 0 {
    } else {
      PowAdd(b, d - 1, e);
      assert b * (Pow(b, d - 1) * Pow(b, e)) == (b * Pow(b, d - 1)) * Pow(b, e);
    }
  }

  lemma {:induction false} PowMul(b: int, d: nat, e: nat)
    ensures Pow(Pow(b, d), e) == Pow(b, d * e)
  {
    if e == 0 {
    } else {
      PowMul(b, d, e - 1);
      PowAdd(b, d, d * (e - 1));
      assert d + d * (e - 1) == d * e;
    }
  }

  lemma {:induction false} PowPositive(b: int, e: nat)
    requires b >= 1
    ensures Pow(b, e) >= 1
  {
    if e == 0 {
    } else {
      PowPositive(b, e - 1);
    }
  }

  lemma {:induction false} PowMonotone(b: int, d: nat, e: nat)
    requires b >= 1 && d <= e
    ensures Pow(b, d) <= Pow(b, e)
  {
    if d == e {
    } else {
      PowMonotone(b, d, e - 1);
      PowPositive(b, e - 1);
    }
  }

  /** Adding a multiple of the modulus does not change the remainder. */
  lemma ModAddMultiple(a: int, k: int, m: int)
    requires m > 0
    ensures (a + k * m) % m == a % m
  {
    var q := a / m;
    assert a == q * m + a % m;
    ModUnique(a + k * m, q + k, a % m, m);
  }

  /** Quotient and remainder are determined by a = q*m + r with 0 <= r < m. */
  lemma ModUnique(a: int, q: int, r: int, m: int)
    requires m > 0 && 0 <= r < m && a == q * m + r
    ensures a / m == q && a % m == r
  {
    var d := a / m - q;
    assert a == (a / m) * m + a % m;
    assert d * m == r - a % m by {
      assert d * m == (a / m) * m - q * m;
    }
    MulGap(d, m);
  }

  lemma MulGap(d: int, m: int)
    requires m > 0
    ensures d >= 1 ==> d * m >= m
    ensures d <= -1 ==> d * m <= -m
  {
    if d >= 1 {
      assert (d - 1) * m >= 0;
    } else if d <= -1 {
      assert (-d - 1) * m >= 0;
    }
  }

  lemma ModMul(a: int, b: int, m: int)
    requires m > 0
    ensures (a % m) * (b % m) % m == a * b % m
  {
    var q, s := a / m, b / m;
    var r, t := a % m, b % m;
    assert a == q * m + r && b == s * m + t;
    calc {
      a * b;
      (q * m + r) * (s * m + t);
      (q * m) * (s * m + t) + r * (s * m + t);
      q * (s * m + t) * m + r * s * m + r * t;
      r * t + (q * (s * m + t) + r * s) * m;
    }
    ModAddMultiple(r * t, q * (s * m + t) + r * s, m);
  }

  lemma {:induction false} PowMod(a: int, e: nat, m: int)
    requires m > 0
    ensures Pow(a % m, e) % m == Pow(a, e) % m
  {
    if e == 0 {
    } else {
      PowMod(a, e - 1, m);
      ModMul(a, Pow(a, e - 1), m);
      ModMul(a % m, Pow(a % m, e - 1), m);
      ModIdempotent(a, m);
    }
  }

  lemma ModIdempotent(a: int, m: int)
    requires m > 0
    ensures a % m % m == a % m
  {
    ModUnique(a % m, 0, a % m, m);
  }
}
