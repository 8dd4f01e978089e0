/** The few facts of arithmetic, and the notions of sequences, that the other modules share. */
module Arith {

  function Least(a: nat, b: nat): nat { if a < b then a else b }

  function Pow2(n: nat): (p: nat)
    ensures p > 0
  {
    if n == 0 then 1 else 2 * Pow2(n - 1)
  }

  /** The sequence with these elements in place of those from n on. */
  function Overwritten<T>(s: seq<T>, n: nat, elements: seq<T>): seq<T>
    requires n + |elements| <= |s|
  {
    s[..n] + elements + s[n + |elements|..]
  }

  lemma {:induction false} SmallMultiple(k: int, d: int)
    requires d > 0 && -d < k * d < d
    ensures k == 0
  {}

  lemma {:induction false} DivUnique(x: nat, d: nat, q: nat, r: nat)
    requires d > 0 && r < d && x == q * d + r
    ensures x / d == q && x % d == r
  {
    SameQuotient(x / d, x % d, q, r, d);
  }

  lemma {:induction false} SameQuotient(q: int, r: int, q': int, r': int, d: int)
    requires 0 <= r < d && 0 <= r' < d && q * d + r == q' * d + r'
    ensures q == q' && r == r'
  {
    assert (q - q') * d == q * d - q' * d == r' - r;
    SmallMultiple(q - q', d);
  }

  lemma {:induction false} MulMonotone(a: nat, b: nat, c: nat)
    requires a <= b
    ensures a * c <= b * c
  {
    assert (b - a) * c >= 0;
    assert (b - a) * c == b * c - a * c;
  }
}
