// Powers of two, division and remainder.
module Arithmetic {

  function Pow2(n: nat): (p: int)
    ensures p > 0
  {
    if n == 0 then 1 else 2 * Pow2(n - 1)
  }

  lemma {:induction false} Pow2Monotone(a: nat, b: nat)
    requires a <= b
    ensures Pow2(a) <= Pow2(b)
    decreases b
  {
    if a < b {
      Pow2Monotone(a, b - 1);
    }
  }

  lemma {:induction false} DivModUnique(x: int, d: int, q: int, r: int)
    requires d > 0 && 0 <= r < d && x == q * d + r
    ensures x / d == q && x % d == r
  {
    var e := x / d - q;
    assert e * d == r - x % d;
    MulSpread(e, d);
  }

  // A multiple of d that is not 0 is at least d away from it.
  lemma {:induction false} MulSpread(e: int, m: int)
    requires m > 0
    ensures e >= 1 ==> e * m >= m
    ensures e <= -1 ==> e * m <= -m
  {
  }

  // The remainder, as a function whose definition proofs can hide.
  function Mod(x: nat, m: nat): (r: nat)
    requires m > 0
    ensures r < m
  {
    x % m
  }

  lemma {:induction false} ModAdd(x: nat, y: nat, m: nat)
    requires m > 0
    ensures Mod(Mod(x, m) + y, m) == Mod(x + y, m)
  {
    var q, r := x / m, x % m;
    var q', r' := (r + y) / m, (r + y) % m;
    assert q * m + r == x && q' * m + r' == r + y;
    assert (q + q') * m == q * m + q' * m;
    DivModUnique(x + y, m, q + q', r');
  }

  lemma {:induction false} ModSmall(x: nat, m: nat)
    requires x < m
    ensures Mod(x, m) == x
  {
    DivModUnique(x, m, 0, x);
  }
}
