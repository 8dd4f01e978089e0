/** The error-correction code of the QR encoder: generator polynomial, remainder and what they guarantee. */
module ReedSolomon {
  import opened Gf256
  import opened Poly

  /** The generator polynomial: the product of (x - 2^i) for i < n. */
  function Generator(n: nat): (g: Polynomial)
    ensures |g| == n + 1
  {
    if n == 0 then [1] else Product(Generator(n - 1), [1, Shift(1, n - 1)])
  }

  lemma {:induction false} ProductByEmpty(p: Polynomial)
    requires |p| > 0
    ensures Product(p, []) == Zeros(|p| - 1)
  {}

  lemma {:induction false} ProductAppend(g: Polynomial, q: Polynomial, c: bv8)
    requires |g| > 0
    ensures Product(g, q + [c]) == Sum(Product(g, q) + [0], Zeros(|q|) + Scale(g, c))
  {
    hide Add, Mul, Scale, Zeros;
    assert (q + [c])[..|q|] == q;
  }

  lemma {:induction false} ProductByOne(p: Polynomial)
    requires |p| > 0
    ensures Product(p, [1]) == p
  {
    ProductBySingle(p);
    hide Add, Mul, Product, Sum, Scale, Zeros;
    forall j | 0 <= j < |p| ensures Add(0, Mul(p[j], 1)) == p[j] {
      MulOne(p[j]);
      AddZero(p[j]);
    }
  }

  lemma {:induction false} ProductBySingle(p: Polynomial)
    requires |p| > 0
    ensures forall j :: 0 <= j < |p| ==> Product(p, [1])[j] == Add(0, Mul(p[j], 1))
  {
    hide Add, Mul;
    ProductByEmpty(p);
    ProductAppend(p, [], 1);
    assert [] + [1] == [1];
    assert Product(p, [1]) == Sum(Zeros(|p| - 1) + [0], Zeros(0) + Scale(p, 1));
    hide Product;
    forall j | 0 <= j < |p| ensures Product(p, [1])[j] == Add(0, Mul(p[j], 1)) {
      assert (Zeros(|p| - 1) + [0])[j] == 0;
      assert (Zeros(0) + Scale(p, 1))[j] == Scale(p, 1)[j];
    }
  }

  lemma {:induction false} ProductByLinear(p: Polynomial, root: bv8)
    requires |p| > 0
    ensures Product(p, [1, root]) == Sum(p + [0], Zeros(1) + Scale(p, root))
  {
    hide *;
    assert [1] + [root] == [1, root];
    ProductAppend(p, [1], root);
    ProductByOne(p);
  }

  /** Multiplying by (x - root), coefficient by coefficient. */
  lemma {:induction false} ProductByRoot(p: Polynomial, root: bv8, i: int)
    requires |p| > 0
    ensures Coef(Product(p, [1, root]), i) == Add(Mul(Coef(p, i - 1), root), Coef(p, i))
  {
    hide Add, Mul, Product;
    ProductByLinear(p, root);
    MulZero(root);
    AddZero(Coef(p, i));
    AddZero(Mul(Coef(p, i - 1), root));
    AddComm(Coef(p, i), Mul(Coef(p, i - 1), root));
  }

  lemma {:induction false} GeneratorStep(k: nat, i: int)
    ensures Coef(Generator(k + 1), i) == Add(Mul(Coef(Generator(k), i - 1), Shift(1, k)), Coef(Generator(k), i))
  {
    hide Add, Mul, Product, Coef, Shift;
    ProductByRoot(Generator(k), Shift(1, k), i);
  }

  lemma {:induction false} GeneratorIsMonic(n: nat)
    ensures Generator(n)[0] == 1
  {
    if n > 0 {
      hide Add, Mul;
      GeneratorIsMonic(n - 1);
      ProductByRoot(Generator(n - 1), Shift(1, n - 1), 0);
      MulZero(Shift(1, n - 1));
      AddZero(1);
      assert Coef(Generator(n), 0) == Generator(n)[0];
    }
  }

  lemma {:induction false} EvalRoot(root: bv8, x: bv8)
    ensures Eval([1, root], x) == Add(x, root)
  {
    hide Add, Mul;
    assert [1, root] == [1] + [root];
    EvalAppend([], 1, x);
    assert [] + [1] == [1];
    EvalAppend([1], root, x);
    MulZero(x);
    AddZero(1);
    MulOne(x);
  }

  /** x is one of the first n powers of two. */
  ghost predicate IsRoot(n: nat, x: bv8) {
    exists i: nat :: i < n && x == Shift(1, i)
  }

  lemma {:induction false} IsRootStep(n: nat, x: bv8)
    requires n > 0
    ensures IsRoot(n, x) <==> IsRoot(n - 1, x) || x == Shift(1, n - 1)
  {
    hide Shift;
  }

  lemma {:induction false} GeneratorEvalStep(n: nat, x: bv8)
    requires n > 0
    ensures Eval(Generator(n), x) == 0 <==> Eval(Generator(n - 1), x) == 0 || x == Shift(1, n - 1)
  {
    var g, root := Generator(n - 1), Shift(1, n - 1);
    EvalProduct(g, [1, root], x);
    EvalRoot(root, x);
    AddIsZero(x, root);
    NoZeroDivisors(Eval(g, x), Add(x, root));
    hide Add, Mul, Shift, Eval, Product;
  }

  /** The generator vanishes at the first n powers of two and nowhere else. */
  lemma {:induction false} GeneratorRoots(n: nat, x: bv8)
    ensures Eval(Generator(n), x) == 0 <==> IsRoot(n, x)
  {
    if n == 0 {
      hide Add, Mul;
      EvalAppend([], 1, x);
      assert [] + [1] == [1];
      MulZero(x);
      AddZero(1);
    } else {
      hide *;
      GeneratorRoots(n - 1, x);
      GeneratorEvalStep(n, x);
      IsRootStep(n, x);
    }
  }

  lemma {:induction false} NextPower(k: nat)
    ensures Mul(Shift(1, k), 2) == Shift(1, k + 1)
  {
    assert Shift(1, 1) == 2;
    hide Mul, Shift, Double;
    MulShiftRight(Shift(1, k), 1, 1);
    MulOne(Shift(1, k));
    ShiftShift(1, k, 1);
  }

  /** Entry j of the working buffer after k roots: the low end of the k-th generator, right aligned. */
  function Window(k: nat, degree: nat, j: int): bv8 {
    Coef(Generator(k), k + 1 + j - degree)
  }

  lemma {:induction false} WindowStep(k: nat, degree: nat, j: nat)
    requires j < degree
    ensures Window(k + 1, degree, j)
            == if j + 1 < degree then Add(Mul(Window(k, degree, j), Shift(1, k)), Window(k, degree, j + 1))
               else Mul(Window(k, degree, j), Shift(1, k))
  {
    hide Add, Mul, Shift, Generator;
    GeneratorStep(k, k + 2 + j - degree);
    AddZero(Mul(Window(k, degree, j), Shift(1, k)));
  }

  lemma {:induction false} WindowStart(degree: nat, j: nat)
    requires j < degree
    ensures Window(0, degree, j) == if j == degree - 1 then 1 else 0
    ensures Shift(1, 0) == 1
  {}

  lemma {:induction false} WindowEnd(degree: nat, j: nat)
    requires j < degree
    ensures Window(degree, degree, j) == Generator(degree)[1..][j]
  {
    hide Generator;
  }

  lemma {:induction false} EmptyGenerator()
    ensures Generator(0) == [1]
  {}

  /** The low coefficients of the generator polynomial, its leading one left out; degree 0 keeps the one it has. */
  method Divisor(degree: nat) returns (divisor: Polynomial)
    ensures divisor == if degree == 0 then Generator(0) else Generator(degree)[1..]
  {
    hide *;
    if degree == 0 {
      EmptyGenerator();
      return [1];
    }
    var result := new bv8[degree](j => if j == degree - 1 then 1 else 0);
    var root: bv8 := 1;
    forall j | 0 <= j < degree ensures result[j] == Window(0, degree, j) {
      WindowStart(degree, j);
    }
    WindowStart(degree, 0);
    for k := 0 to degree
      invariant root == Shift(1, k)
      invariant forall j :: 0 <= j < degree ==> result[j] == Window(k, degree, j)
    {
      for j := 0 to degree
        invariant forall t :: 0 <= t < j ==> result[t] == Window(k + 1, degree, t)
        invariant forall t :: j <= t < degree ==> result[t] == Window(k, degree, t)
      {
        WindowStep(k, degree, j);
        result[j] := Multiply(result[j], root);
        if j + 1 < degree {
          result[j] := Add(result[j], result[j + 1]);
        }
      }
      root := Multiply(root, 2);
      NextPower(k);
    }
    forall j | 0 <= j < degree ensures result[j] == Generator(degree)[1..][j] {
      WindowEnd(degree, j);
    }
    divisor := result[..];
  }

  // ---------- the remainder ----------

  /** One step of the shift register: factor is the new byte plus the register's head. */
  function Step(register: Polynomial, low: Polynomial, value: bv8): (next: Polynomial)
    requires |register| == |low| > 0
    ensures |next| == |low|
  {
    Sum(register[1..] + [0], Scale(low, Add(value, register[0])))
  }

  /** The register after all bytes of data. */
  function Remainder(data: Polynomial, low: Polynomial): (register: Polynomial)
    requires |low| > 0
    ensures |register| == |low|
    decreases |data|
  {
    if |data| == 0 then Zeros(|low|)
    else Step(Remainder(data[..|data| - 1], low), low, data[|data| - 1])
  }

  /** The factors met on the way: the quotient of the division. */
  function Quotient(data: Polynomial, low: Polynomial): (q: Polynomial)
    requires |low| > 0
    ensures |q| == |data|
    decreases |data|
  {
    if |data| == 0 then []
    else
      var m := |data| - 1;
      Quotient(data[..m], low) + [Add(data[m], Remainder(data[..m], low)[0])]
  }

  /** Adding f times the generator to a shifted multiple replaces the register's head by the new byte. */
  lemma {:induction false} DivisionAt(data: Polynomial, register: Polynomial, low: Polynomial, value: bv8, i: nat)
    requires |register| == |low| > 0 && i < |data| + |low| + 1
    ensures Sum(data + register + [0], Zeros(|data|) + Scale([1] + low, Add(value, register[0])))[i]
            == (data + [value] + Step(register, low, value))[i]
  {
    hide Add, Mul;
    var f, m := Add(value, register[0]), |data|;
    if i < m {
      AddZero(data[i]);
    } else if i == m {
      MulOne(f);
      AddComm(value, register[0]);
      AddAssoc(register[0], register[0], value);
      AddZero(register[0]);
      AddZero(value);
    } else {
      assert (data + register + [0])[i] == (register[1..] + [0])[i - m - 1];
    }
  }

  lemma {:induction false} DivisionStep(data: Polynomial, register: Polynomial, low: Polynomial, value: bv8)
    requires |register| == |low| > 0
    ensures Sum(data + register + [0], Zeros(|data|) + Scale([1] + low, Add(value, register[0])))
            == data + [value] + Step(register, low, value)
  {
    hide *;
    var left := Sum(data + register + [0], Zeros(|data|) + Scale([1] + low, Add(value, register[0])));
    var right := data + [value] + Step(register, low, value);
    forall i: nat | i < |data| + |low| + 1 ensures left[i] == right[i] {
      DivisionAt(data, register, low, value, i);
    }
  }

  /** Data followed by its remainder is a multiple of the generator. */
  lemma {:induction false} RemainderDivides(data: Polynomial, low: Polynomial)
    requires |low| > 0
    ensures data + Remainder(data, low) == Product([1] + low, Quotient(data, low))
    decreases |data|
  {
    hide Add, Mul, Product, Step, Sum;
    if |data| == 0 {
      ProductByEmpty([1] + low);
    } else {
      var m := |data| - 1;
      var d, v := data[..m], data[m];
      var r := Remainder(d, low);
      RemainderDivides(d, low);
      DivisionStep(d, r, low, v);
      ProductAppend([1] + low, Quotient(d, low), Add(v, r[0]));
      assert d + [v] == data;
    }
  }

  lemma {:induction false} ProductAppendAt(g: Polynomial, q: Polynomial, c: bv8, i: nat)
    requires |g| > 0 && i <= |q|
    ensures Product(g, q + [c])[i] == Add((Product(g, q) + [0])[i], if i < |q| then 0 else Mul(g[0], c))
  {
    ProductAppend(g, q, c);
    hide Add, Mul, Product;
  }

  /** The leading coefficients of a product with a monic polynomial. */
  lemma {:induction false} MonicProductHead(g: Polynomial, q: Polynomial, c: bv8)
    requires |g| > 0 && g[0] == 1
    ensures forall i :: 0 <= i < |q| ==> Product(g, q + [c])[i] == Product(g, q)[i]
    ensures Product(g, q + [c])[|q|] == Add((Product(g, q) + [0])[|q|], c)
  {
    hide *;
    forall i | 0 <= i < |q| ensures Product(g, q + [c])[i] == Product(g, q)[i] {
      ProductAppendAt(g, q, c, i);
      AddZero(Product(g, q)[i]);
    }
    ProductAppendAt(g, q, c, |q|);
    MulOne(c);
  }

  /** A quotient is determined by the high coefficients of its product with a monic polynomial. */
  lemma {:induction false} QuotientUnique(g: Polynomial, p: Polynomial, q: Polynomial)
    requires |g| > 0 && g[0] == 1 && |p| == |q|
    requires forall i :: 0 <= i < |p| ==> Product(g, p)[i] == Product(g, q)[i]
    ensures p == q
    decreases |p|
  {
    if |p| > 0 {
      hide *;
      var m := |p| - 1;
      var p', q' := p[..m], q[..m];
      assert p' + [p[m]] == p && q' + [q[m]] == q;
      MonicProductHead(g, p', p[m]);
      MonicProductHead(g, q', q[m]);
      forall i | 0 <= i < m ensures Product(g, p')[i] == Product(g, q')[i] {
        assert Product(g, p)[i] == Product(g, q)[i];
      }
      QuotientUnique(g, p', q');
      AddCancels((Product(g, p') + [0])[m], p[m], q[m]);
    }
  }

  lemma {:induction false} AddCancels(a: bv8, b: bv8, c: bv8)
    requires Add(a, b) == Add(a, c)
    ensures b == c
  {}

  /** tail completes data to a multiple of the generator 1 :: low. */
  ghost predicate Completes(data: Polynomial, tail: Polynomial, low: Polynomial)
    requires |low| > 0
  {
    exists q: Polynomial :: |q| == |data| && data + tail == Product([1] + low, q)
  }

  /** The remainder is the one and only tail that makes the block a multiple of the generator. */
  lemma {:induction false} RemainderCharacterised(data: Polynomial, tail: Polynomial, low: Polynomial)
    requires |low| > 0 && |tail| == |low|
    ensures Completes(data, tail, low) <==> tail == Remainder(data, low)
  {
    hide Product, Remainder, Quotient;
    RemainderDivides(data, low);
    var g, r, p := [1] + low, Remainder(data, low), Quotient(data, low);
    assert data + r == Product(g, p);
    if Completes(data, tail, low) {
      var q: Polynomial :| |q| == |data| && data + tail == Product(g, q);
      assert forall i :: 0 <= i < |data| ==> (data + tail)[i] == data[i] == (data + r)[i];
      QuotientUnique(g, p, q);
      assert (data + tail)[|data|..] == tail && (data + r)[|data|..] == r;
    }
  }

  /** A block with its error-correction bytes evaluates to zero at every root of the generator. */
  lemma {:induction false} Syndromes(data: Polynomial, n: nat, i: nat)
    requires i < n
    ensures Eval(data + Remainder(data, Generator(n)[1..]), Shift(1, i)) == 0
  {
    hide Product, Remainder, Quotient, Mul, Shift, Generator, Eval;
    var low := Generator(n)[1..];
    GeneratorIsMonic(n);
    assert [1] + low == Generator(n);
    RemainderDivides(data, low);
    EvalProduct(Generator(n), Quotient(data, low), Shift(1, i));
    GeneratorRoots(n, Shift(1, i));
    MulZero(Eval(Quotient(data, low), Shift(1, i)));
  }

  /** The remainder as the source computes it: a register that loses its head and gains a zero for every byte. */
  method ComputeRemainder(data: Polynomial, divisor: Polynomial) returns (result: Polynomial)
    requires |divisor| > 0
    ensures result == Remainder(data, divisor)
  {
    hide *;
    result := Zeros(|divisor|);
    RemainderStart(divisor);
    for t := 0 to |data|
      invariant result == Remainder(data[..t], divisor)
    {
      ghost var before := result;
      var factor := Add(data[t], result[0]);
      result := result[1..] + [0];
      ghost var shifted := result;
      for i := 0 to |divisor|
        invariant |result| == |divisor|
        invariant forall j :: 0 <= j < i ==> result[j] == Add(shifted[j], Mul(divisor[j], factor))
        invariant forall j :: i <= j < |divisor| ==> result[j] == shifted[j]
      {
        var product := Multiply(divisor[i], factor);
        result := result[i := Add(result[i], product)];
      }
      StepIs(before, divisor, data[t], result);
      RemainderNext(data, divisor, t);
    }
    assert data[..|data|] == data;
  }

  lemma {:induction false} RemainderStart(low: Polynomial)
    requires |low| > 0
    ensures Remainder([], low) == Zeros(|low|)
  {}

  lemma {:induction false} RemainderNext(data: Polynomial, low: Polynomial, t: nat)
    requires |low| > 0 && t < |data|
    ensures Remainder(data[..t + 1], low) == Step(Remainder(data[..t], low), low, data[t])
  {
    hide Step;
    assert data[..t + 1][..t] == data[..t];
  }

  lemma {:induction false} StepIs(register: Polynomial, low: Polynomial, value: bv8, next: Polynomial)
    requires |register| == |low| == |next| > 0
    requires forall j :: 0 <= j < |low| ==>
               next[j] == Add((register[1..] + [0])[j], Mul(low[j], Add(value, register[0])))
    ensures next == Step(register, low, value)
  {
    hide Add, Mul;
  }
}
