/** The minimum distance of the error-correction code. */
module Distance {
  import opened Gf256
  import opened Poly
  import opened ReedSolomon

  lemma {:induction false} PowerSum(i: nat, j: nat)
    ensures Shift(1, i + j) == Mul(Shift(1, i), Shift(1, j))
  {
    hide Shift, Mul;
    ShiftShift(1, i, j);
    MulShiftRight(Shift(1, i), 1, j);
    MulOne(Shift(1, i));
  }

  lemma {:induction false} PowerValue(i: nat, j: nat, u: bv8, v: bv8)
    requires Shift(1, i) == u && Shift(1, j) == v
    ensures Shift(1, i + j) == MulUnrolled(u, v)
  {
    hide *;
    PowerSum(i, j);
    MulUnrolls(u, v);
  }

  lemma {:induction false} PowerValues()
    ensures Shift(1, 15) == 0x26 && Shift(1, 51) == 0x0A && Shift(1, 85) == 0xD6 && Shift(1, 255) == 1
  {
    assert Shift(1, 1) == 2;
    hide Shift;
    PowerValue(1, 1, 0x02, 0x02);
    PowerValue(2, 2, 0x04, 0x04);
    PowerValue(4, 1, 0x10, 0x02);
    PowerValue(5, 5, 0x20, 0x20);
    PowerValue(10, 5, 0x74, 0x20);
    PowerValue(15, 2, 0x26, 0x04);
    PowerValue(17, 17, 0x98, 0x98);
    PowerValue(34, 17, 0x4E, 0x98);
    PowerValue(51, 34, 0x0A, 0x4E);
    PowerValue(85, 85, 0xD6, 0xD6);
    PowerValue(170, 85, 0xD7, 0xD6);
  }

  // ---------- the powers of two repeat only after 255 steps ----------

  predicate Period(d: nat) { Shift(1, d) == 1 }

  lemma {:induction false} PeriodDifference(a: nat, b: nat)
    requires a <= b && Period(a) && Period(b)
    ensures Period(b - a)
  {
    hide Shift;
    ShiftShift(1, a, b - a);
  }

  lemma {:induction false} PeriodMultiple(d: nat, m: nat)
    requires Period(d)
    ensures Period(m * d)
  {
    if m == 0 {
      assert m * d == 0;
    } else {
      PeriodMultiple(d, m - 1);
      assert m * d == (m - 1) * d + d;
      hide Shift;
      ShiftShift(1, (m - 1) * d, d);
    }
  }

  /** Two periods have a common divisor that is a period. */
  lemma {:induction false} PeriodGcd(a: nat, b: nat) returns (g: nat, p: nat, q: nat)
    requires a > 0 && b > 0 && Period(a) && Period(b)
    ensures g > 0 && p > 0 && Period(g) && a == p * g && b == q * g
    decreases a + b
  {
    if a == b {
      g, p, q := a, 1, 1;
    } else if a < b {
      PeriodDifference(a, b);
      g, p, q := PeriodGcd(a, b - a);
      assert b == (p + q) * g;
      q := p + q;
    } else {
      PeriodDifference(b, a);
      g, p, q := PeriodGcd(a - b, b);
      assert a == (p + q) * g;
      p := p + q;
    }
  }

  lemma {:induction false} ProductGrows(a: nat, b: nat, c: nat, d: nat)
    requires a >= c && b >= d
    ensures a * b >= c * d
  {
    assert a * b >= a * d >= c * d;
  }

  lemma {:induction false} DivisorsOf255(g: nat, q: nat)
    requires q * g == 255 && g < 255
    ensures g in {1, 3, 5, 15, 17, 51, 85}
  {
    if g < 16 {
      assert g in {0, 1, 2, 3, 4, 5, 6, 7, 8, 9, 10, 11, 12, 13, 14, 15};
    } else {
      if q >= 16 { ProductGrows(q, g, 16, 16); }
      assert q in {0, 1, 2, 3, 4, 5, 6, 7, 8, 9, 10, 11, 12, 13, 14, 15};
    }
  }

  lemma {:induction false} ShortPeriodSpreads(d: nat)
    requires 0 < d < 255 && Period(d) && Period(255)
    ensures Period(15) || Period(51) || Period(85)
  {
    hide Period;
    var g, p, q := PeriodGcd(d, 255);
    ProductGrows(p, g, 1, g);
    DivisorsOf255(g, q);
    if g == 1 { PeriodMultiple(g, 15); }
    else if g == 3 { PeriodMultiple(g, 5); }
    else if g == 5 { PeriodMultiple(g, 3); }
    else if g == 17 { PeriodMultiple(g, 3); }
  }

  lemma {:induction false} NoShortPeriod(d: nat)
    requires 0 < d < 255
    ensures Shift(1, d) != 1
  {
    hide Shift;
    PowerValues();
    if Period(d) {
      ShortPeriodSpreads(d);
    }
  }

  lemma {:induction false} PowersDistinct(a: nat, b: nat)
    requires a < 255 && b < 255 && a != b
    ensures Shift(1, a) != Shift(1, b)
  {
    hide *;
    if a > b {
      PowersDistinct(b, a);
    } else {
      var d := b - a;
      NoShortPeriod(d);
      PowerSum(a, d);
      if Shift(1, a) == Shift(1, b) {
        FixedFactor(Shift(1, a), Shift(1, d));
        ShiftNonZero(1, a);
      }
    }
  }

  lemma {:induction false} FixedFactor(u: bv8, v: bv8)
    requires Mul(u, v) == u
    ensures u == 0 || v == 1
  {
    hide *;
    MulAddsRight(u, v, 1);
    MulOne(u);
    AddZero(u);
    NoZeroDivisors(u, Add(v, 1));
    AddIsZero(v, 1);
  }

  // ---------- weight and distance ----------

  /** The number of non-zero coefficients. */
  function Weight(e: Polynomial): (w: nat)
    ensures w <= |e|
  {
    if |e| == 0 then 0 else Weight(e[..|e| - 1]) + (if e[|e| - 1] != 0 then 1 else 0)
  }

  /** Every coefficient times the power of two of its position. */
  function Twist(e: Polynomial): (t: Polynomial)
    ensures |t| == |e|
  {
    seq(|e|, i requires 0 <= i < |e| => Mul(e[i], Shift(1, |e| - 1 - i)))
  }

  lemma {:induction false} TwistPrefix(e: Polynomial)
    requires |e| > 0
    ensures Twist(e)[..|e| - 1] == Scale(Twist(e[..|e| - 1]), 2)
  {
    hide Mul, Shift;
    var n := |e| - 1;
    forall i | 0 <= i < n ensures Twist(e)[i] == Mul(Twist(e[..n])[i], 2) {
      NextPower(n - 1 - i);
      MulAssoc(e[i], Shift(1, n - 1 - i), 2);
    }
  }

  /** Twisting a polynomial moves its value at 2 * x to x. */
  lemma {:induction false} EvalTwist(e: Polynomial, x: bv8)
    ensures Eval(Twist(e), x) == Eval(e, Mul(2, x))
  {
    if |e| > 0 {
      var n := |e| - 1;
      var p, c := e[..n], e[n];
      assert Shift(1, 0) == 1;
      hide Mul, Shift, Add, Twist;
      EvalTwist(p, x);
      TwistPrefix(e);
      TwistLast(e);
      EvalScale(Twist(p), 2, x);
      MulAssoc(Eval(Twist(p), x), 2, x);
    }
  }

  lemma {:induction false} TwistLast(e: Polynomial)
    requires |e| > 0
    ensures Twist(e)[|e| - 1] == e[|e| - 1]
  {
    assert Shift(1, 0) == 1;
    hide Mul, Shift;
    MulOne(e[|e| - 1]);
  }

  /** Removes position k: every coefficient times the difference of its power and that of k. */
  function Eliminate(e: Polynomial, k: nat): (r: Polynomial)
    requires k < |e|
    ensures |r| == |e|
  {
    Sum(Twist(e), Scale(e, Shift(1, |e| - 1 - k)))
  }

  lemma {:induction false} EliminateAt(e: Polynomial, k: nat, i: nat)
    requires k < |e| <= 255 && i < |e|
    ensures Eliminate(e, k)[i] == 0 <==> e[i] == 0 || i == k
  {
    hide Mul, Add, Shift;
    var u, v := Shift(1, |e| - 1 - i), Shift(1, |e| - 1 - k);
    MulAddsRight(e[i], u, v);
    NoZeroDivisors(e[i], Add(u, v));
    AddIsZero(u, v);
    if i != k {
      PowersDistinct(|e| - 1 - i, |e| - 1 - k);
    }
  }

  lemma {:induction false} EliminateEval(e: Polynomial, k: nat, i: nat)
    requires k < |e|
    requires Eval(e, Shift(1, i)) == 0 && Eval(e, Shift(1, i + 1)) == 0
    ensures Eval(Eliminate(e, k), Shift(1, i)) == 0
  {
    hide Mul, Add, Shift, Eval;
    var x, v := Shift(1, i), Shift(1, |e| - 1 - k);
    EvalSum(Twist(e), Scale(e, v), x);
    EvalTwist(e, x);
    MulComm(2, x);
    NextPower(i);
    EvalScale(e, v, x);
    MulZero(v);
    AddZero(0);
  }

  lemma {:induction false} EliminateWeight(e: Polynomial, r: Polynomial, k: nat)
    requires |r| == |e| && k < |e| && e[k] != 0
    requires forall i :: 0 <= i < |e| ==> (r[i] == 0 <==> e[i] == 0 || i == k)
    ensures Weight(r) == Weight(e) - 1
  {
    var n := |e| - 1;
    if k == n {
      SameWeight(e[..n], r[..n]);
    } else {
      EliminateWeight(e[..n], r[..n], k);
    }
  }

  lemma {:induction false} SameWeight(e: Polynomial, r: Polynomial)
    requires |r| == |e|
    requires forall i :: 0 <= i < |e| ==> (r[i] == 0 <==> e[i] == 0)
    ensures Weight(r) == Weight(e)
  {
    if |e| > 0 {
      SameWeight(e[..|e| - 1], r[..|e| - 1]);
    }
  }

  lemma {:induction false} SingleTerm(e: Polynomial, k: nat)
    requires k < |e|
    requires forall i :: 0 <= i < |e| && i != k ==> e[i] == 0
    ensures Eval(e, 1) == e[k]
  {
    hide Mul, Add;
    var n := |e| - 1;
    MulOne(Eval(e[..n], 1));
    if k == n {
      assert e[..n] == Zeros(n);
      EvalZeros(n, 1);
      AddZero(e[n]);
    } else {
      SingleTerm(e[..n], k);
      AddZero(e[k]);
    }
  }

  lemma {:induction false} ZeroWeight(e: Polynomial)
    ensures Weight(e) == 0 <==> forall i :: 0 <= i < |e| ==> e[i] == 0
  {
    if |e| > 0 {
      var init := e[..|e| - 1];
      ZeroWeight(init);
      assert forall i :: 0 <= i < |init| ==> e[i] == init[i];
    }
  }

  /** The word evaluates to zero at the first n powers of two. */
  ghost predicate Vanishes(e: Polynomial, n: nat) {
    forall i: nat :: i < n ==> Eval(e, Shift(1, i)) == 0
  }

  lemma {:induction false} VanishesSum(u: Polynomial, v: Polynomial, n: nat)
    requires |u| == |v| && Vanishes(u, n) && Vanishes(v, n)
    ensures Vanishes(Sum(u, v), n)
  {
    hide Eval, Sum, Shift, Add;
    forall i: nat | i < n ensures Eval(Sum(u, v), Shift(1, i)) == 0 {
      EvalSum(u, v, Shift(1, i));
      AddZero(0);
    }
  }

  lemma {:induction false} VanishesEliminate(e: Polynomial, k: nat, n: nat)
    requires k < |e| && n > 0 && Vanishes(e, n)
    ensures Vanishes(Eliminate(e, k), n - 1)
  {
    hide Eval, Shift, Eliminate;
    forall i: nat | i < n - 1 ensures Eval(Eliminate(e, k), Shift(1, i)) == 0 {
      EliminateEval(e, k, i);
    }
  }

  lemma {:induction false} VanishesAtOne(e: Polynomial, n: nat)
    requires n > 0 && Vanishes(e, n)
    ensures Eval(e, 1) == 0
  {
    assert Shift(1, 0) == 1;
    hide Eval, Shift;
    assert Eval(e, Shift(1, 0)) == 0;
  }

  /** A word of at most 255 bytes that vanishes at the first n powers of two is zero or has more than n non-zero
      bytes. */
  lemma {:induction false} VanishingWordIsHeavy(e: Polynomial, n: nat)
    requires |e| <= 255 && Vanishes(e, n)
    ensures Weight(e) == 0 || Weight(e) > n
    decreases n
  {
    ZeroWeight(e);
    if n > 0 && Weight(e) != 0 {
      var k :| 0 <= k < |e| && e[k] != 0;
      var r := Eliminate(e, k);
      hide *;
      forall i | 0 <= i < |e| ensures r[i] == 0 <==> e[i] == 0 || i == k {
        EliminateAt(e, k, i);
      }
      EliminateWeight(e, r, k);
      VanishesEliminate(e, k, n);
      VanishingWordIsHeavy(r, n - 1);
      if Weight(r) == 0 {
        ZeroWeight(r);
        SingleTerm(e, k);
        VanishesAtOne(e, n);
      }
    }
  }

  /** The number of positions in which two words differ. */
  function Differences(a: seq<bv8>, b: seq<bv8>): nat
    requires |a| == |b|
  {
    if |a| == 0 then 0
    else Differences(a[..|a| - 1], b[..|b| - 1]) + (if a[|a| - 1] != b[|b| - 1] then 1 else 0)
  }

  lemma {:induction false} DifferencesIsWeight(a: seq<bv8>, b: seq<bv8>)
    requires |a| == |b|
    ensures Differences(a, b) == Weight(Sum(a, b))
  {
    if |a| > 0 {
      var n := |a| - 1;
      DifferencesIsWeight(a[..n], b[..n]);
      assert Sum(a, b)[..n] == Sum(a[..n], b[..n]);
      AddIsZero(a[n], b[n]);
      hide Add;
    }
  }

  lemma {:induction false} NoDifferences(a: seq<bv8>, b: seq<bv8>)
    requires |a| == |b|
    ensures Differences(a, b) == 0 <==> a == b
  {
    if |a| > 0 {
      NoDifferences(a[..|a| - 1], b[..|b| - 1]);
      assert a[..|a| - 1] + [a[|a| - 1]] == a && b[..|b| - 1] + [b[|b| - 1]] == b;
    }
  }

  /** The bytes sent for one block: its data followed by n error-correction bytes. */
  function Block(data: Polynomial, n: nat): (word: Polynomial)
    requires n > 0
    ensures |word| == |data| + n && word[..|data|] == data
  {
    data + Remainder(data, Generator(n)[1..])
  }

  /** Two different data blocks of one length are sent as words that differ in more than n bytes. */
  lemma {:induction false} MinimumDistance(a: Polynomial, b: Polynomial, n: nat)
    requires n > 0 && |a| == |b| && |a| + n <= 255 && a != b
    ensures Differences(Block(a, n), Block(b, n)) > n
  {
    var u, v := Block(a, n), Block(b, n);
    hide *;
    BlockVanishes(a, n);
    BlockVanishes(b, n);
    VanishesSum(u, v, n);
    VanishingWordIsHeavy(Sum(u, v), n);
    DifferencesIsWeight(u, v);
    NoDifferences(u, v);
  }

  lemma {:induction false} BlockVanishes(data: Polynomial, n: nat)
    requires n > 0
    ensures Vanishes(Block(data, n), n)
  {
    hide Remainder, Eval, Generator, Shift;
    forall i: nat | i < n ensures Eval(Block(data, n), Shift(1, i)) == 0 {
      Syndromes(data, n, i);
    }
  }

  lemma {:induction false} DifferencesTriangle(a: seq<bv8>, b: seq<bv8>, c: seq<bv8>)
    requires |a| == |b| == |c|
    ensures Differences(a, c) <= Differences(a, b) + Differences(b, c)
    ensures Differences(a, b) == Differences(b, a)
  {
    if |a| > 0 {
      var n := |a| - 1;
      DifferencesTriangle(a[..n], b[..n], c[..n]);
    }
  }

  /** At most n / 2 damaged bytes leave only one block of that length within reach: the one that was sent. */
  lemma {:induction false} DamageIsCorrectable(sent: Polynomial, other: Polynomial, received: seq<bv8>, n: nat)
    requires n > 0 && |sent| == |other| && |sent| + n == |received| <= 255
    requires 2 * Differences(Block(sent, n), received) <= n
    requires 2 * Differences(Block(other, n), received) <= n
    ensures other == sent
  {
    hide *;
    if other != sent {
      MinimumDistance(sent, other, n);
      DifferencesTriangle(Block(sent, n), received, Block(other, n));
      DifferencesTriangle(Block(other, n), received, Block(sent, n));
    }
  }

  /** A word with these data bytes vanishes at every root exactly when its tail is the remainder. */
  lemma {:induction false} SyndromesCharacterise(data: Polynomial, tail: Polynomial, n: nat)
    requires n > 0 && |tail| == n && |data| + n <= 255
    ensures Vanishes(data + tail, n) <==> data + tail == Block(data, n)
  {
    hide *;
    BlockVanishes(data, n);
    if Vanishes(data + tail, n) {
      var u, v := data + tail, Block(data, n);
      assert forall i :: 0 <= i < |data| ==> u[i] == v[..|data|][i] == v[i];
      VanishingTail(u, v, |data|, n);
    }
  }

  lemma {:induction false} VanishingTail(u: Polynomial, v: Polynomial, m: nat, n: nat)
    requires |u| == |v| == m + n <= 255
    requires forall i :: 0 <= i < m ==> u[i] == v[i]
    requires Vanishes(u, n) && Vanishes(v, n)
    ensures u == v
  {
    VanishesSum(u, v, n);
    hide *;
    VanishingWordIsHeavy(Sum(u, v), n);
    DifferencesIsWeight(u, v);
    NoDifferences(u, v);
    DifferencesInTail(u, v, m);
  }

  lemma {:induction false} DifferencesInTail(a: seq<bv8>, b: seq<bv8>, m: nat)
    requires |a| == |b| && m <= |a|
    requires forall i :: 0 <= i < m ==> a[i] == b[i]
    ensures Differences(a, b) <= |a| - m
  {
    if |a| > m {
      DifferencesInTail(a[..|a| - 1], b[..|b| - 1], m);
    } else {
      assert a == b;
      NoDifferences(a, b);
    }
  }
}
