/** The smallest transform size with small prime factors. */
module FftSize {
  import opened Arith

  // ---------- products of given primes ----------

  /** Products of powers of the listed numbers, built up from the last number to the first. */
  predicate Product(ps: seq<nat>, m: nat)
    requires forall i :: 0 <= i < |ps| ==> ps[i] > 1
    decreases |ps|, m
  {
    if ps == [] then m == 1
    else m > 0 && (Product(ps[1..], m) || (m % ps[0] == 0 && m / ps[0] < m && Product(ps, m / ps[0])))
  }

  const PRIMES: seq<nat> := [2, 3, 5, 7, 11]

  lemma {:induction false} PrimesAre()
    ensures PRIMES == [2, 3, 5, 7, 11]
  {}

  lemma {:induction false} Quotient(a: nat, p: nat)
    requires p > 1
    ensures (p * a) % p == 0 && (p * a) / p == a
    ensures a > 0 ==> a < p * a
  {
    DivUnique(p * a, p, a, 0);
  }

  lemma {:induction false} Factor(m: nat, p: nat)
    requires p > 0 && m % p == 0
    ensures m == p * (m / p)
  {}

  lemma {:induction false} ProductPositive(ps: seq<nat>, m: nat)
    requires forall i :: 0 <= i < |ps| ==> ps[i] > 1
    requires Product(ps, m)
    ensures m > 0
  {}

  lemma {:induction false} ProductOfNone(ps: seq<nat>)
    requires forall i :: 0 <= i < |ps| ==> ps[i] > 1
    ensures Product(ps, 1)
  {
    if ps != [] { ProductOfNone(ps[1..]); }
  }

  lemma {:induction false} ProductByFirst(ps: seq<nat>, k: nat)
    requires forall i :: 0 <= i < |ps| ==> ps[i] > 1
    requires ps != [] && Product(ps, k)
    ensures Product(ps, ps[0] * k)
  {
    ProductPositive(ps, k);
    Quotient(k, ps[0]);
  }

  lemma {:induction false} ProductFromRest(ps: seq<nat>, m: nat)
    requires forall i :: 0 <= i < |ps| ==> ps[i] > 1
    requires ps != [] && Product(ps[1..], m)
    ensures Product(ps, m)
  {
    ProductPositive(ps[1..], m);
  }

  /** A product either does without the first number or is that number times a smaller product. */
  lemma {:induction false} ProductCases(ps: seq<nat>, m: nat) returns (k: nat)
    requires forall i :: 0 <= i < |ps| ==> ps[i] > 1
    requires ps != [] && Product(ps, m)
    ensures Product(ps[1..], m) || (k < m && m == ps[0] * k && Product(ps, k))
  {
    k := m / ps[0];
    if !Product(ps[1..], m) { Factor(m, ps[0]); }
  }

  lemma {:induction false} ProductGrows(ps: seq<nat>, m: nat, p: nat)
    requires forall i :: 0 <= i < |ps| ==> ps[i] > 1
    requires Product(ps, m) && p in ps
    ensures Product(ps, p * m)
    decreases |ps|, m
  {
    hide Product;
    if p == ps[0] {
      ProductByFirst(ps, m);
    } else {
      var k := ProductCases(ps, m);
      if Product(ps[1..], m) {
        ProductGrows(ps[1..], m, p);
        ProductFromRest(ps, p * m);
      } else {
        ProductGrows(ps, k, p);
        ProductByFirst(ps, p * k);
        Swap(p, ps[0], k);
      }
    }
  }

  lemma {:induction false} Swap(a: nat, b: nat, c: nat)
    ensures a * (b * c) == b * (a * c)
  {}

  // ---------- what they have to do with prime factors ----------

  ghost predicate Divides(d: nat, m: nat) { d > 0 && exists k: nat :: m == d * k }

  ghost predicate IsPrime(q: nat) { q > 1 && forall d: nat :: 1 < d < q ==> !Divides(d, q) }

  /** All prime factors are among 2, 3, 5, 7 and 11. */
  ghost predicate ElevenSmooth(m: nat) { m >= 1 && forall q: nat :: IsPrime(q) && Divides(q, m) ==> q in PRIMES }

  lemma {:induction false} Expand(p: nat, a: nat, r: nat, k: nat, q: nat, t: nat)
    requires r * k == q * p + t
    ensures (p * a + r) * k == (a * k + q) * p + t
  {
    calc {
      (p * a + r) * k;
      (p * a) * k + r * k;
      { assert (p * a) * k == (a * k) * p; }
      (a * k) * p + (q * p + t);
      { assert (a * k + q) * p == (a * k) * p + q * p; }
      (a * k + q) * p + t;
    }
  }

  lemma {:induction false} QuotientRest(m: nat, p: nat)
    requires p > 0
    ensures m == (m / p) * p + m % p && m == p * (m / p) + m % p
  {}

  lemma {:induction false} FactorResidue(p: nat, d: nat, k: nat)
    requires p > 0
    ensures ((d % p) * k) % p == (d * k) % p
  {
    var r, a := d % p, d / p;
    var rk := r * k;
    QuotientRest(d, p);
    QuotientRest(rk, p);
    var q, t := rk / p, rk % p;
    Expand(p, a, r, k, q, t);
    DivUnique(d * k, p, a * k + q, t);
  }

  lemma {:induction false} ResiduesOf5(r: nat, s: nat)
    requires r < 5 && s < 5 && (r * s) % 5 == 0
    ensures r == 0 || s == 0
  {
    if r == 1 {} else if r == 2 {} else if r == 3 {} else if r == 4 {}
  }

  lemma {:induction false} ResiduesOf7(r: nat, s: nat)
    requires r < 7 && s < 7 && (r * s) % 7 == 0
    ensures r == 0 || s == 0
  {
    if r == 1 {} else if r == 2 {} else if r == 3 {} else if r == 4 {} else if r == 5 {} else if r == 6 {}
  }

  lemma {:induction false} ResiduesOf11(r: nat, s: nat)
    requires r < 11 && s < 11 && (r * s) % 11 == 0
    ensures r == 0 || s == 0
  {
    if r == 1 {} else if r == 2 {} else if r == 3 {} else if r == 4 {} else if r == 5 {}
    else if r == 6 {} else if r == 7 {} else if r == 8 {} else if r == 9 {} else if r == 10 {}
  }

  lemma {:induction false} ResidueIsZero(p: nat, r: nat, s: nat)
    requires p in PRIMES && r < p && s < p && (r * s) % p == 0
    ensures r == 0 || s == 0
  {
    if p == 2 {} else if p == 3 {} else if p == 5 { ResiduesOf5(r, s); } else if p == 7 { ResiduesOf7(r, s); }
        else { ResiduesOf11(r, s); }
  }

  lemma {:induction false} ResidueProduct(p: nat, d: nat, k: nat)
    requires p > 0
    ensures ((d % p) * (k % p)) % p == (d * k) % p
  {
    FactorResidue(p, d, k);
    FactorResidue(p, k, d % p);
    Commute(d % p, k);
    Commute(d % p, k % p);
  }

  lemma {:induction false} Commute(a: nat, b: nat)
    ensures a * b == b * a
  {}

  /** Residues modulo a small prime have no zero divisors. */
  lemma {:induction false} SmallEuclid(p: nat, d: nat, k: nat)
    requires p in PRIMES && (d * k) % p == 0
    ensures d % p == 0 || k % p == 0
  {
    ResidueProduct(p, d, k);
    ResidueIsZero(p, d % p, k % p);
  }

  /** A divisor of p times m that p does not divide, divides m. */
  lemma {:induction false} DivisorOfProduct(p: nat, d: nat, m: nat)
    requires p in PRIMES && Divides(d, p * m) && d % p != 0
    ensures Divides(d, m)
  {
    var k: nat :| p * m == d * k;
    hide *;
    assert d != 0;
    PrimesAre();
    Quotient(m, p);
    SmallEuclid(p, d, k);
    Factor(k, p);
    var j := k / p;
    Swap(d, p, j);
    Quotient(d * j, p);
    DividesBy(d, m, j);
  }

  lemma {:induction false} DividesBy(d: nat, m: nat, k: nat)
    requires d > 0 && m == d * k
    ensures Divides(d, m)
  {}

  lemma {:induction false} DivisorsOfOne(d: nat)
    requires Divides(d, 1)
    ensures d == 1
  {
    var k: nat :| 1 == d * k;
    assert k == 0 ==> d * k == 0;
    assert k >= 1 ==> d * k >= d;
  }

  /** Every divisor of a product of the primes, other than one, is a multiple of one of them. */
  lemma {:induction false} DivisorsHaveFactors(ps: seq<nat>, m: nat, d: nat)
    requires forall i :: 0 <= i < |ps| ==> ps[i] > 1 && ps[i] in PRIMES
    requires Product(ps, m) && Divides(d, m) && d > 1
    ensures exists p :: p in PRIMES && d % p == 0
    decreases |ps|, m
  {
    if ps == [] {
      DivisorsOfOne(d);
    } else {
      hide Product, Divides;
      var k := ProductCases(ps, m);
      if Product(ps[1..], m) {
        DivisorsHaveFactors(ps[1..], m, d);
      } else if d % ps[0] != 0 {
        DivisorOfProduct(ps[0], d, k);
        DivisorsHaveFactors(ps, k, d);
      }
    }
  }

  lemma {:induction false} LeastDivisor(m: nat, d: nat)
    requires 1 < d <= m
    requires forall e: nat :: 1 < e < d ==> !Divides(e, m)
    ensures exists q: nat :: IsPrime(q) && Divides(q, m)
    decreases m - d
  {
    if Divides(d, m) {
      forall e: nat | 1 < e < d ensures !Divides(e, d) {
        if Divides(e, d) { DividesTrans(e, d, m); }
      }
      assert IsPrime(d);
    } else {
      DividesItself(m);
      LeastDivisor(m, d + 1);
    }
  }

  lemma {:induction false} DividesItself(m: nat)
    requires m > 0
    ensures Divides(m, m)
  {
    assert m == m * 1;
  }

  lemma {:induction false} DividesTrans(a: nat, b: nat, c: nat)
    requires Divides(a, b) && Divides(b, c)
    ensures Divides(a, c)
  {
    var i: nat :| b == a * i;
    var j: nat :| c == b * j;
    assert c == a * (i * j);
  }

  lemma {:induction false} OnlyItself(q: nat, p: nat)
    requires IsPrime(q) && p > 1 && q % p == 0
    ensures p == q
  {
    Factor(q, p);
    DividesBy(p, q, q / p);
    hide Divides;
    var j := q / p;
    assert j >= 1 ==> p * j >= p;
    assert j == 0 ==> p * j == 0;
  }

  lemma {:induction false} PrimeDivisor(m: nat, q: nat)
    requires Product(PRIMES, m) && IsPrime(q) && Divides(q, m)
    ensures q in PRIMES
  {
    assert q > 1;
    hide Product, IsPrime, Divides;
    DivisorsHaveFactors(PRIMES, m, q);
    var p :| p in PRIMES && q % p == 0;
    OnlyItself(q, p);
  }

  lemma {:induction false} ProductIsSmooth(m: nat)
    requires Product(PRIMES, m)
    ensures ElevenSmooth(m)
  {
    ProductPositive(PRIMES, m);
    hide Product, IsPrime, Divides;
    forall q: nat | IsPrime(q) && Divides(q, m) ensures q in PRIMES {
      PrimeDivisor(m, q);
    }
  }

  lemma {:induction false} CofactorIsSmooth(m: nat, q: nat, k: nat)
    requires ElevenSmooth(m) && m == q * k
    ensures k > 0 && ElevenSmooth(k)
  {
    assert k == 0 ==> q * k == 0;
    assert m == k * q;
    assert Divides(k, m);
    forall r: nat | IsPrime(r) && Divides(r, k) ensures r in PRIMES {
      DividesTrans(r, k, m);
    }
  }

  lemma {:induction false} SmoothIsMade(m: nat)
    requires ElevenSmooth(m)
    ensures Product(PRIMES, m)
  {
    if m == 1 {
      ProductOfNone(PRIMES);
    } else {
      LeastDivisor(m, 2);
      var q: nat :| IsPrime(q) && Divides(q, m);
      var k: nat :| m == q * k;
      CofactorIsSmooth(m, q, k);
      hide Product, Divides;
      Quotient(k, q);
      SmoothIsMade(k);
      ProductGrows(PRIMES, k, q);
    }
  }

  /** Products of 2, 3, 5, 7 and 11 are exactly the numbers without other prime factors. */
  lemma {:induction false} SmoothIsProduct(m: nat)
    ensures ElevenSmooth(m) <==> Product(PRIMES, m)
  {
    hide Product;
    if Product(PRIMES, m) { ProductIsSmooth(m); }
    if ElevenSmooth(m) { SmoothIsMade(m); }
  }

  // ---------- the search ----------

  ghost predicate Multiple(ps: seq<nat>, f: nat, x: nat)
    requires forall i :: 0 <= i < |ps| ==> ps[i] > 1
  {
    exists k :: Product(ps, k) && x == f * k
  }

  /** No multiple of base by such products improves on best. */
  ghost predicate Searched(ps: seq<nat>, base: nat, n: nat, best: nat)
    requires forall i :: 0 <= i < |ps| ==> ps[i] > 1
  {
    forall x: nat :: Multiple(ps, base, x) ==> x < n || x >= best
  }

  /** The multiples of base that improve on best are multiples of f. */
  ghost predicate Remaining(ps: seq<nat>, base: nat, f: nat, n: nat, best: nat)
    requires forall i :: 0 <= i < |ps| ==> ps[i] > 1
  {
    forall x: nat :: Multiple(ps, base, x) && n <= x < best ==> Multiple(ps, f, x)
  }

  lemma {:induction false} SearchStarts(ps: seq<nat>, base: nat, n: nat, best: nat)
    requires forall i :: 0 <= i < |ps| ==> ps[i] > 1
    ensures Remaining(ps, base, base, n, best)
  {}

  /** A smaller best leaves less to look at. */
  lemma {:induction false} SearchNarrows(ps: seq<nat>, base: nat, f: nat, n: nat, best: nat, better: nat)
    requires forall i :: 0 <= i < |ps| ==> ps[i] > 1
    requires Remaining(ps, base, f, n, best) && better <= best
    ensures Remaining(ps, base, f, n, better)
  {
    hide Multiple;
  }

  lemma {:induction false} MultipleAdvances(ps: seq<nat>, f: nat, x: nat)
    requires forall i :: 0 <= i < |ps| ==> ps[i] > 1
    requires ps != [] && Multiple(ps, f, x)
    ensures Multiple(ps[1..], f, x) || Multiple(ps, ps[0] * f, x)
  {
    var k :| Product(ps, k) && x == f * k;
    var j := ProductCases(ps, k);
    hide Product;
    if !Product(ps[1..], k) {
      Regroup(f, ps[0], j);
      assert Product(ps, j) && x == (ps[0] * f) * j;
    }
  }

  lemma {:induction false} Regroup(f: nat, p: nat, j: nat)
    ensures f * (p * j) == (p * f) * j
  {}

  /** Once the multiples of f by the other primes are searched, f times the first prime comes next. */
  lemma {:induction false} SearchAdvances(ps: seq<nat>, base: nat, f: nat, n: nat, best: nat)
    requires forall i :: 0 <= i < |ps| ==> ps[i] > 1
    requires ps != [] && Remaining(ps, base, f, n, best) && Searched(ps[1..], f, n, best)
    ensures Remaining(ps, base, ps[0] * f, n, best)
  {
    hide Multiple;
    forall x: nat | Multiple(ps, base, x) && n <= x < best ensures Multiple(ps, ps[0] * f, x) {
      MultipleAdvances(ps, f, x);
    }
  }

  lemma {:induction false} MultipleIsLarge(ps: seq<nat>, f: nat, x: nat)
    requires forall i :: 0 <= i < |ps| ==> ps[i] > 1
    requires Multiple(ps, f, x)
    ensures x >= f
  {
    var k :| Product(ps, k) && x == f * k;
    ProductPositive(ps, k);
    assert f * k >= f;
  }

  lemma {:induction false} SearchEnds(ps: seq<nat>, base: nat, f: nat, n: nat, best: nat)
    requires forall i :: 0 <= i < |ps| ==> ps[i] > 1
    requires Remaining(ps, base, f, n, best) && f >= best
    ensures Searched(ps, base, n, best)
  {
    hide Multiple;
    forall x: nat | Multiple(ps, base, x) && n <= x < best ensures x >= f {
      MultipleIsLarge(ps, f, x);
    }
  }

  /** With no primes left there is one multiple. */
  lemma {:induction false} SearchOne(f: nat, n: nat, best: nat)
    requires f < n || f >= best
    ensures Searched([], f, n, best)
  {}

  // ---------- the result ----------

  lemma {:induction false} PowersArePlentiful(n: nat, k: nat)
    requires n >= 1 && Pow2(k) >= n
    ensures exists j: nat :: n <= Pow2(j) < 2 * n
  {
    if Pow2(k) >= 2 * n { PowersArePlentiful(n, k - 1); }
  }

  lemma {:induction false} PowersExceed(k: nat)
    ensures Pow2(k) >= k
  {
    if k > 0 { PowersExceed(k - 1); }
  }

  lemma {:induction false} PowersAreProducts(k: nat)
    ensures Product(PRIMES, Pow2(k))
  {
    ProductOfNone(PRIMES);
    hide Product;
    if k > 0 {
      PowersAreProducts(k - 1);
      ProductGrows(PRIMES, Pow2(k - 1), 2);
    }
  }

  /** There is always a product between n and 2 n, so the first guess is improved upon. */
  lemma {:induction false} GuessIsImproved(n: nat, best: nat)
    requires n >= 1 && Searched(PRIMES, 1, n, best)
    ensures best < 2 * n
  {
    PowersExceed(n);
    PowersArePlentiful(n, n);
    var j: nat :| n <= Pow2(j) < 2 * n;
    PowersAreProducts(j);
    hide Product;
    assert Pow2(j) == 1 * Pow2(j);
    assert Multiple(PRIMES, 1, Pow2(j));
  }

  lemma {:induction false} SmallOnesAreSmooth(n: nat)
    requires 1 <= n <= 6
    ensures ElevenSmooth(n)
  {
    hide Product, ElevenSmooth;
    ProductOfNone(PRIMES);
    ProductGrows(PRIMES, 1, 2);
    ProductGrows(PRIMES, 1, 3);
    ProductGrows(PRIMES, 1, 5);
    ProductGrows(PRIMES, 2, 2);
    ProductGrows(PRIMES, 2, 3);
    SmoothIsProduct(n);
  }

  lemma {:induction false} MultipleOfOne(m: nat)
    requires Product(PRIMES, m)
    ensures Multiple(PRIMES, 1, m)
  {
    hide Product;
    assert m == 1 * m;
  }

  /** What a finished search means. */
  lemma {:induction false} SearchedIsLeast(n: nat, best: nat)
    requires Searched(PRIMES, 1, n, best)
    ensures forall m :: n <= m < best ==> !ElevenSmooth(m)
  {
    forall m: nat | n <= m < best ensures !ElevenSmooth(m) {
      hide Product, Multiple;
      SmoothIsProduct(m);
      if Product(PRIMES, m) { MultipleOfOne(m); }
    }
  }

  /** The best so far is the first guess, or a product that is large enough. */
  ghost predicate Candidate(best: nat, n: nat) {
    n <= best <= 2 * n && (best < 2 * n ==> Product(PRIMES, best))
  }

  /**
   * The state of loop number i, counted from the outside: f is a product, and the multiples of base by primes from
   * number i on that improve on best are multiples of f.
   */
  ghost predicate Level(i: nat, base: nat, f: nat, n: nat, best: nat) {
    && i <= 5 && f > 0 && n <= best && Product(PRIMES, f) && Candidate(best, n)
    && Remaining(PRIMES[i..], base, f, n, best)
  }

  lemma {:induction false} LevelStarts(i: nat, f: nat, n: nat, best: nat)
    requires i <= 5 && f > 0 && n <= best && Product(PRIMES, f) && Candidate(best, n)
    ensures Level(i, f, f, n, best)
  {
    hide Product, Candidate, Remaining;
    SearchStarts(PRIMES[i..], f, n, best);
  }

  lemma {:induction false} LevelIs(i: nat, base: nat, f: nat, n: nat, best: nat)
    requires Level(i, base, f, n, best)
    ensures f > 0 && n <= best && Product(PRIMES, f) && Candidate(best, n)
  {}

  lemma {:induction false} PrimesAreLarge()
    ensures forall i :: 0 <= i < |PRIMES| ==> PRIMES[i] > 1
  {}

  /** One round of loop i that has searched the multiples of f by later primes and moves on to p * f. */
  lemma {:induction false} Round(i: nat, base: nat, f: nat, n: nat, before: nat, best: nat, p: nat)
    requires Level(i, base, f, n, before) && n <= best <= before && Candidate(best, n)
    requires i < 5 && p == PRIMES[i] && Searched(PRIMES[i + 1..], f, n, best)
    ensures Level(i, base, f * p, n, best) && f * p > f
  {
    hide Product, Candidate, Remaining, Searched;
    PrimesAreLarge();
    var ps := PRIMES[i..];
    assert forall k :: 0 <= k < |ps| ==> ps[k] == PRIMES[i + k];
    assert ps[0] == p && ps[1..] == PRIMES[i + 1..];
    SearchNarrows(ps, base, f, n, before, best);
    SearchAdvances(ps, base, f, n, best);
    ProductGrows(PRIMES, f, p);
    assert p * f == f * p;
  }

  /** The same, when the later primes were searched by the next loop. */
  lemma {:induction false} OuterRound(i: nat, base: nat, f: nat, g: nat, n: nat, before: nat, best: nat, p: nat)
    requires Level(i, base, f, n, before) && best <= before
    requires i < 5 && p == PRIMES[i] && Level(i + 1, f, g, n, best) && g >= best
    ensures Level(i, base, f * p, n, best) && f * p > f
  {
    LevelIs(i + 1, f, g, n, best);
    SearchEnds(PRIMES[i + 1..], f, g, n, best);
    hide Level, Product, Candidate, Remaining, Searched;
    Round(i, base, f, n, before, best, p);
  }

  /** One round of the innermost loop. */
  lemma {:induction false} InnerRound(base: nat, f: nat, n: nat, before: nat)
    requires Level(4, base, f, n, before) && f < before
    ensures var best := if f >= n then f else before; Level(4, base, f * 11, n, best) && f * 11 > f && best <= before
  {
    var best := if f >= n then f else before;
    hide Product, Remaining, Multiple;
    SearchOne(f, n, best);
    assert PRIMES[5..] == [];
    hide Level, Candidate, Searched;
    LevelIs(4, base, f, n, before);
    NewCandidate(f, n, before);
    Round(4, base, f, n, before, best, 11);
  }

  lemma {:induction false} NewCandidate(f: nat, n: nat, before: nat)
    requires Candidate(before, n) && Product(PRIMES, f) && f < before
    ensures Candidate(if f >= n then f else before, n)
  {
    hide Product;
  }

  lemma {:induction false} SearchBegins(n: nat)
    requires n >= 1
    ensures Level(0, 1, 1, n, 2 * n)
  {
    ProductOfNone(PRIMES);
    hide Product;
    LevelStarts(0, 1, n, 2 * n);
  }

  lemma {:induction false} SearchIsOver(f: nat, n: nat, best: nat)
    requires Level(0, 1, f, n, best) && f >= best && n >= 1
    ensures best >= n && ElevenSmooth(best) && forall m :: n <= m < best ==> !ElevenSmooth(m)
  {
    hide Product, Remaining, Multiple, ElevenSmooth, Searched;
    assert PRIMES[0..] == PRIMES;
    SearchEnds(PRIMES, 1, f, n, best);
    GuessIsImproved(n, best);
    SmoothIsProduct(best);
    SearchedIsLeast(n, best);
  }

  /** The smallest number from n on with no prime factor above 11. */
  method FftNextGoodSize(n: int) returns (best: int)
    ensures n <= 6 ==> best == n
    ensures n >= 1 ==> best >= n && ElevenSmooth(best) && forall m :: n <= m < best ==> !ElevenSmooth(m)
  {
    hide *;
    PrimesAre();
    if n <= 6 {
      if n >= 1 { SmallOnesAreSmooth(n); }
      return n;
    }
    var f2 := 1;
    best := 2 * n;
    SearchBegins(n);
    while f2 < best
      invariant f2 >= 0 && best >= 0 && Level(0, 1, f2, n, best)
      decreases best - f2
    {
      ghost var best2 := best;
      var f23 := f2;
      LevelIs(0, 1, f2, n, best);
      LevelStarts(1, f2, n, best);
      while f23 < best
        invariant f23 >= 0 && 0 <= best <= best2 && Level(1, f2, f23, n, best)
        decreases best - f23
      {
        ghost var best3 := best;
        var f235 := f23;
        LevelIs(1, f2, f23, n, best);
        LevelStarts(2, f23, n, best);
        while f235 < best
          invariant f235 >= 0 && 0 <= best <= best3 && Level(2, f23, f235, n, best)
          decreases best - f235
        {
          ghost var best5 := best;
          var f2357 := f235;
          LevelIs(2, f23, f235, n, best);
          LevelStarts(3, f235, n, best);
          while f2357 < best
            invariant f2357 >= 0 && 0 <= best <= best5 && Level(3, f235, f2357, n, best)
            decreases best - f2357
          {
            ghost var best7 := best;
            var f235711 := f2357;
            LevelIs(3, f235, f2357, n, best);
            LevelStarts(4, f2357, n, best);
            while f235711 < best
              invariant f235711 >= 0 && 0 <= best <= best7 && Level(4, f2357, f235711, n, best)
              decreases best - f235711
            {
              InnerRound(f2357, f235711, n, best);
              best := if f235711 >= n then f235711 else best;
              f235711 := f235711 * 11;
            }
            OuterRound(3, f235, f2357, f235711, n, best7, best, 7);
            f2357 := f2357 * 7;
          }
          OuterRound(2, f23, f235, f2357, n, best5, best, 5);
          f235 := f235 * 5;
        }
        OuterRound(1, f2, f23, f235, n, best3, best, 3);
        f23 := f23 * 3;
      }
      OuterRound(0, 1, f2, f23, n, best2, best, 2);
      f2 := f2 * 2;
    }
    SearchIsOver(f2, n, best);
  }
}
