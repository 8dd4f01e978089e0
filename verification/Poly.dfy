/** Polynomials over GF(2^8), highest power first, as the QR code stores them. */
module Poly {
  import opened Gf256

  type Polynomial = seq<bv8>

  function Zeros(n: nat): (p: Polynomial)
    ensures |p| == n
  {
    seq(n, _ => 0)
  }

  /** The value of p at x. */
  function Eval(p: Polynomial, x: bv8): bv8 {
    if |p| == 0 then 0 else Add(Mul(Eval(p[..|p| - 1], x), x), p[|p| - 1])
  }

  function Sum(p: Polynomial, q: Polynomial): (s: Polynomial)
    requires |p| == |q|
    ensures |s| == |p|
  {
    seq(|p|, i requires 0 <= i < |p| => Add(p[i], q[i]))
  }

  function Scale(p: Polynomial, c: bv8): (s: Polynomial)
    ensures |s| == |p|
  {
    seq(|p|, i requires 0 <= i < |p| => Mul(p[i], c))
  }

  /** The product: the last coefficient of q multiplies p, the others multiply x * p. */
  function Product(p: Polynomial, q: Polynomial): (r: Polynomial)
    requires |p| > 0
    ensures |r| == |p| + |q| - 1
    decreases |q|
  {
    if |q| == 0 then Zeros(|p| - 1)
    else
      var m := |q| - 1;
      Sum(Product(p, q[..m]) + [0], Zeros(m) + Scale(p, q[m]))
  }

  /** The coefficient at index i, and zero outside p. */
  function Coef(p: Polynomial, i: int): bv8 {
    if 0 <= i < |p| then p[i] else 0
  }

  lemma {:induction false} EvalAppend(p: Polynomial, c: bv8, x: bv8)
    ensures Eval(p + [c], x) == Add(Mul(Eval(p, x), x), c)
  {
    hide Add, Mul;
    assert (p + [c])[..|p|] == p;
  }

  lemma {:induction false} EvalSum(p: Polynomial, q: Polynomial, x: bv8)
    requires |p| == |q|
    ensures Eval(Sum(p, q), x) == Add(Eval(p, x), Eval(q, x))
  {
    hide Add, Mul;
    if |p| == 0 {
      AddZero(0);
    } else {
      var n := |p| - 1;
      EvalSum(p[..n], q[..n], x);
      assert Sum(p, q)[..n] == Sum(p[..n], q[..n]);
      MulAddsLeft(Eval(p[..n], x), Eval(q[..n], x), x);
      AddShuffle(Mul(Eval(p[..n], x), x), Mul(Eval(q[..n], x), x), p[n], q[n]);
    }
  }

  lemma {:induction false} EvalScale(p: Polynomial, c: bv8, x: bv8)
    ensures Eval(Scale(p, c), x) == Mul(Eval(p, x), c)
  {
    hide Add, Mul;
    if |p| == 0 {
      MulZero(c);
    } else {
      var n := |p| - 1;
      var e := Eval(p[..n], x);
      EvalScale(p[..n], c, x);
      assert Scale(p, c)[..n] == Scale(p[..n], c);
      MulAddsLeft(Mul(e, x), p[n], c);
      MulAssoc(e, c, x);
      MulComm(c, x);
      MulAssoc(e, x, c);
    }
  }

  lemma {:induction false} EvalZeros(m: nat, x: bv8)
    ensures Eval(Zeros(m), x) == 0
  {
    hide Add, Mul;
    if m > 0 {
      EvalZeros(m - 1, x);
      assert Zeros(m)[..m - 1] == Zeros(m - 1);
      MulZero(x);
      AddZero(0);
    }
  }

  lemma {:induction false} EvalPadded(m: nat, p: Polynomial, x: bv8)
    ensures Eval(Zeros(m) + p, x) == Eval(p, x)
  {
    hide Add, Mul;
    if |p| == 0 {
      EvalZeros(m, x);
      assert Zeros(m) + p == Zeros(m);
    } else {
      var n := |p| - 1;
      EvalPadded(m, p[..n], x);
      assert (Zeros(m) + p)[..m + n] == Zeros(m) + p[..n];
    }
  }

  /** Evaluation is multiplicative, so Product is the product of polynomials. */
  lemma {:induction false} EvalProduct(p: Polynomial, q: Polynomial, x: bv8)
    requires |p| > 0
    ensures Eval(Product(p, q), x) == Mul(Eval(p, x), Eval(q, x))
    decreases |q|
  {
    hide Add, Mul;
    if |q| == 0 {
      EvalZeros(|p| - 1, x);
      MulZero(Eval(p, x));
    } else {
      var m := |q| - 1;
      var e, f := Eval(p, x), Eval(q[..m], x);
      EvalProduct(p, q[..m], x);
      EvalSum(Product(p, q[..m]) + [0], Zeros(m) + Scale(p, q[m]), x);
      EvalAppend(Product(p, q[..m]), 0, x);
      AddZero(Mul(Mul(e, f), x));
      EvalPadded(m, Scale(p, q[m]), x);
      EvalScale(p, q[m], x);
      MulAssoc(e, f, x);
      MulAddsRight(e, Mul(f, x), q[m]);
    }
  }
}
