/** Arithmetic of GF(2^8) with reduction polynomial 0x11D, the field of the QR error-correction code. */
module Gf256 {

  /** Addition (and subtraction) of the field: bitwise exclusive or. */
  function Add(a: bv8, b: bv8): bv8 { a ^ b }

  /** Multiplication by the field element 2: shift, then reduce by 0x11D. */
  function Double(a: bv8): bv8 {
    if a & 0x80 != 0 then (a << 1) ^ 0x1D else a << 1
  }

  /** Multiplication by the i-th power of 2. */
  function Shift(a: bv8, i: nat): bv8 {
    if i == 0 then a else Double(Shift(a, i - 1))
  }

  predicate Bit(b: bv8, i: nat)
    requires i < 8
  {
    (b >> i) & 1 != 0
  }

  /** v when bit i of b is set, and zero otherwise. */
  function Keep(b: bv8, i: nat, v: bv8): bv8
    requires i < 8
  {
    if Bit(b, i) then v else 0
  }

  /** The sum of a * 2^i over the set bits i < n of b. */
  function MulBits(a: bv8, b: bv8, n: nat): bv8
    requires n <= 8
  {
    if n == 0 then 0 else Add(MulBits(a, b, n - 1), Keep(b, n - 1, Shift(a, n - 1)))
  }

  /** The product of the field: b read as a sum of powers of 2. */
  function Mul(a: bv8, b: bv8): bv8 { MulBits(a, b, 8) }

  /** 2 is a root of x^8 + x^4 + x^3 + x^2 + 1, the polynomial the field is built with. */
  lemma {:induction false} TwoIsRoot()
    ensures Add(Shift(1, 8), Add(Shift(1, 4), Add(Shift(1, 3), Add(Shift(1, 2), Shift(1, 0))))) == 0
    ensures Shift(1, 7) == 0x80
  {
    assert Shift(1, 1) == 2 && Shift(1, 2) == 4 && Shift(1, 3) == 8 && Shift(1, 4) == 16;
    assert Shift(1, 5) == 32 && Shift(1, 6) == 64;
  }

  // ---------- the additive group ----------

  lemma {:induction false} AddComm(a: bv8, b: bv8)
    ensures Add(a, b) == Add(b, a)
  {}

  lemma {:induction false} AddAssoc(a: bv8, b: bv8, c: bv8)
    ensures Add(Add(a, b), c) == Add(a, Add(b, c))
  {}

  lemma {:induction false} AddZero(a: bv8)
    ensures Add(a, 0) == a == Add(0, a) && Add(a, a) == 0
  {}

  lemma {:induction false} AddShuffle(a: bv8, b: bv8, c: bv8, d: bv8)
    ensures Add(Add(a, b), Add(c, d)) == Add(Add(a, c), Add(b, d))
  {
    hide Add;
    AddAssoc(a, b, Add(c, d));
    AddAssoc(b, c, d);
    AddComm(b, c);
    AddAssoc(c, b, d);
    AddAssoc(a, c, Add(b, d));
  }

  lemma {:induction false} AddIsZero(a: bv8, b: bv8)
    ensures Add(a, b) == 0 <==> a == b
  {}

  // ---------- doubling is linear ----------

  lemma {:induction false} DoubleAdds(a: bv8, b: bv8)
    ensures Double(Add(a, b)) == Add(Double(a), Double(b))
  {
    if a & 0x80 == 0 && b & 0x80 == 0 {}
    else if a & 0x80 == 0 {}
    else if b & 0x80 == 0 {}
    else {}
  }

  lemma {:induction false} DoubleInjective(a: bv8)
    ensures Double(a) == 0 <==> a == 0
  {}

  lemma {:induction false} ShiftAdds(a: bv8, b: bv8, i: nat)
    ensures Shift(Add(a, b), i) == Add(Shift(a, i), Shift(b, i))
  {
    hide Double, Add;
    if i > 0 {
      ShiftAdds(a, b, i - 1);
      DoubleAdds(Shift(a, i - 1), Shift(b, i - 1));
    }
  }

  lemma {:induction false} ShiftShift(a: bv8, i: nat, j: nat)
    ensures Shift(Shift(a, i), j) == Shift(a, i + j)
  {
    hide Double;
    if j > 0 {
      ShiftShift(a, i, j - 1);
    }
  }

  lemma {:induction false} ShiftZero(i: nat)
    ensures Shift(0, i) == 0
  {
    if i > 0 {
      ShiftZero(i - 1);
      hide Shift;
    }
  }

  lemma {:induction false} KeepAdds(b: bv8, i: nat, u: bv8, v: bv8)
    requires i < 8
    ensures Keep(b, i, Add(u, v)) == Add(Keep(b, i, u), Keep(b, i, v))
  {}

  /** The number whose only set bit is bit i. */
  function BitOf(i: nat): bv8
    requires i < 8
  {
    if i == 0 then 0x01 else if i == 1 then 0x02 else if i == 2 then 0x04 else if i == 3 then 0x08
    else if i == 4 then 0x10 else if i == 5 then 0x20 else if i == 6 then 0x40 else 0x80
  }

  lemma {:induction false} BitByMask(b: bv8, i: nat)
    requires i < 8
    ensures Bit(b, i) <==> b & BitOf(i) != 0
  {
    if i == 0 {} else if i == 1 {} else if i == 2 {} else if i == 3 {}
    else if i == 4 {} else if i == 5 {} else if i == 6 {} else {}
  }

  lemma {:induction false} MaskOfSum(b: bv8, c: bv8, i: nat)
    requires i < 8
    ensures Add(b, c) & BitOf(i) != 0 <==> (b & BitOf(i) != 0) != (c & BitOf(i) != 0)
  {
    if i == 0 {} else if i == 1 {} else if i == 2 {} else if i == 3 {}
    else if i == 4 {} else if i == 5 {} else if i == 6 {} else {}
  }

  lemma {:induction false} BitOfSum(b: bv8, c: bv8, i: nat)
    requires i < 8
    ensures Bit(Add(b, c), i) <==> (Bit(b, i) != Bit(c, i))
  {
    hide Bit, Add, BitOf;
    BitByMask(b, i);
    BitByMask(c, i);
    BitByMask(Add(b, c), i);
    MaskOfSum(b, c, i);
  }

  lemma {:induction false} KeepSplits(b: bv8, c: bv8, i: nat, v: bv8)
    requires i < 8
    ensures Keep(Add(b, c), i, v) == Add(Keep(b, i, v), Keep(c, i, v))
  {
    BitOfSum(b, c, i);
    AddZero(v);
    AddZero(0);
    hide Bit, Add;
  }

  lemma {:induction false} KeepDoubles(b: bv8, i: nat, v: bv8)
    requires i < 8
    ensures Keep(b, i, Double(v)) == Double(Keep(b, i, v))
  {
    assert Double(0) == 0;
    hide Double;
  }

  lemma {:induction false} KeepShifts(b: bv8, i: nat, v: bv8, j: nat)
    requires i < 8
    ensures Keep(b, i, Shift(v, j)) == Shift(Keep(b, i, v), j)
  {
    hide Keep, Double;
    if j > 0 {
      KeepShifts(b, i, v, j - 1);
      KeepDoubles(b, i, Shift(v, j - 1));
    }
  }

  // ---------- multiplication distributes over addition ----------

  lemma {:induction false} MulBitsAddsLeft(a: bv8, b: bv8, c: bv8, n: nat)
    requires n <= 8
    ensures MulBits(Add(a, b), c, n) == Add(MulBits(a, c, n), MulBits(b, c, n))
  {
    if n == 0 {
      AddZero(0);
    } else {
      hide Add, Keep, Shift;
      MulBitsAddsLeft(a, b, c, n - 1);
      ShiftAdds(a, b, n - 1);
      var u, v := Shift(a, n - 1), Shift(b, n - 1);
      KeepAdds(c, n - 1, u, v);
      AddShuffle(MulBits(a, c, n - 1), MulBits(b, c, n - 1), Keep(c, n - 1, u), Keep(c, n - 1, v));
    }
  }

  lemma {:induction false} MulBitsAddsRight(a: bv8, b: bv8, c: bv8, n: nat)
    requires n <= 8
    ensures MulBits(a, Add(b, c), n) == Add(MulBits(a, b, n), MulBits(a, c, n))
  {
    if n == 0 {
      AddZero(0);
    } else {
      hide Add, Keep, Shift;
      MulBitsAddsRight(a, b, c, n - 1);
      var u := Shift(a, n - 1);
      KeepSplits(b, c, n - 1, u);
      AddShuffle(MulBits(a, b, n - 1), MulBits(a, c, n - 1), Keep(b, n - 1, u), Keep(c, n - 1, u));
    }
  }

  lemma {:induction false} MulAddsLeft(a: bv8, b: bv8, c: bv8)
    ensures Mul(Add(a, b), c) == Add(Mul(a, c), Mul(b, c))
  {
    hide Add, MulBits;
    MulBitsAddsLeft(a, b, c, 8);
  }

  lemma {:induction false} MulAddsRight(a: bv8, b: bv8, c: bv8)
    ensures Mul(a, Add(b, c)) == Add(Mul(a, b), Mul(a, c))
  {
    hide Add, MulBits;
    MulBitsAddsRight(a, b, c, 8);
  }

  // ---------- multiplication by powers of two ----------

  lemma {:induction false} MulBitsShiftLeft(a: bv8, b: bv8, n: nat, j: nat)
    requires n <= 8
    ensures MulBits(Shift(a, j), b, n) == Shift(MulBits(a, b, n), j)
  {
    if n == 0 {
      ShiftZero(j);
    } else {
      hide Add, Keep, Shift;
      MulBitsShiftLeft(a, b, n - 1, j);
      ShiftShift(a, j, n - 1);
      ShiftShift(a, n - 1, j);
      KeepShifts(b, n - 1, Shift(a, n - 1), j);
      ShiftAdds(MulBits(a, b, n - 1), Keep(b, n - 1, Shift(a, n - 1)), j);
    }
  }

  lemma {:induction false} MulShiftLeft(a: bv8, b: bv8, j: nat)
    ensures Mul(Shift(a, j), b) == Shift(Mul(a, b), j)
  {
    hide MulBits, Shift;
    MulBitsShiftLeft(a, b, 8, j);
  }

  // ---------- the ring laws ----------

  lemma {:induction false} MulZeroLeft(b: bv8)
    ensures Mul(0, b) == 0
  {
    hide Add, MulBits;
    MulAddsLeft(0, 0, b);
    AddZero(0);
    AddIsZero(Mul(0, b), Mul(0, b));
  }

  /** The i low bits of b. */
  function Low(b: bv8, i: nat): bv8
    requires i <= 8
  {
    if i == 0 then 0 else if i == 1 then b & 0x01 else if i == 2 then b & 0x03 else if i == 3 then b & 0x07
    else if i == 4 then b & 0x0F else if i == 5 then b & 0x1F else if i == 6 then b & 0x3F
        else if i == 7 then b & 0x7F else b
  }

  lemma {:induction false} LowStep(b: bv8, i: nat)
    requires i < 8
    ensures Add(Low(b, i), Keep(b, i, BitOf(i))) == Low(b, i + 1)
  {
    assert i == 0 || i == 1 || i == 2 || i == 3 || i == 4 || i == 5 || i == 6 || i == 7;
  }

  lemma {:induction false} BitOfStep(i: nat)
    requires i < 7
    ensures Double(BitOf(i)) == BitOf(i + 1)
  {
    assert i == 0 || i == 1 || i == 2 || i == 3 || i == 4 || i == 5 || i == 6;
  }

  lemma {:induction false} ShiftOne(i: nat)
    requires i < 8
    ensures Shift(1, i) == BitOf(i)
  {
    if i > 0 {
      ShiftOne(i - 1);
      BitOfStep(i - 1);
      hide Double, BitOf;
    }
  }

  lemma {:induction false} MulBitsOne(b: bv8, n: nat)
    requires n <= 8
    ensures MulBits(1, b, n) == Low(b, n)
  {
    if n > 0 {
      MulBitsOne(b, n - 1);
      LowStep(b, n - 1);
      ShiftOne(n - 1);
      hide Add, Keep, Low, BitOf, Shift;
    }
  }

  lemma {:induction false} MulOneLeft(b: bv8)
    ensures Mul(1, b) == b
  {
    hide MulBits;
    MulBitsOne(b, 8);
    assert Low(b, 8) == b;
  }

  lemma {:induction false} MulKeepLeft(b: bv8, i: nat, v: bv8, a: bv8)
    requires i < 8
    ensures Mul(Keep(b, i, v), a) == Keep(b, i, Mul(v, a))
  {
    MulZeroLeft(a);
    hide Mul;
  }

  lemma {:induction false} MulOfBits(a: bv8, b: bv8, n: nat)
    requires n <= 8
    ensures Mul(MulBits(1, b, n), a) == MulBits(a, b, n)
  {
    if n == 0 {
      MulZeroLeft(a);
    } else {
      hide Add, Shift, Keep, Mul;
      MulOfBits(a, b, n - 1);
      MulAddsLeft(MulBits(1, b, n - 1), Keep(b, n - 1, Shift(1, n - 1)), a);
      MulKeepLeft(b, n - 1, Shift(1, n - 1), a);
      MulShiftLeft(1, a, n - 1);
      MulOneLeft(a);
    }
  }

  lemma {:induction false} MulComm(a: bv8, b: bv8)
    ensures Mul(a, b) == Mul(b, a)
  {
    hide MulBits;
    MulOfBits(a, b, 8);
    MulOneLeft(b);
  }

  lemma {:induction false} MulOne(a: bv8)
    ensures Mul(1, a) == a == Mul(a, 1)
  {
    hide Mul;
    MulOneLeft(a);
    MulComm(a, 1);
  }

  lemma {:induction false} MulZero(a: bv8)
    ensures Mul(0, a) == 0 == Mul(a, 0)
  {
    hide Mul;
    MulZeroLeft(a);
    MulComm(a, 0);
  }

  lemma {:induction false} MulShiftRight(a: bv8, b: bv8, j: nat)
    ensures Mul(a, Shift(b, j)) == Shift(Mul(a, b), j)
  {
    hide Mul, Shift;
    MulComm(a, Shift(b, j));
    MulShiftLeft(b, a, j);
    MulComm(a, b);
  }

  lemma {:induction false} MulBitsAssoc(a: bv8, b: bv8, c: bv8, n: nat)
    requires n <= 8
    ensures MulBits(Mul(a, b), c, n) == Mul(a, MulBits(b, c, n))
  {
    if n == 0 {
      MulZero(a);
    } else {
      hide Add, Shift, Keep, Mul;
      var u := Shift(b, n - 1);
      MulBitsAssoc(a, b, c, n - 1);
      MulAddsRight(a, MulBits(b, c, n - 1), Keep(c, n - 1, u));
      MulKeepLeft(c, n - 1, u, a);
      MulComm(a, Keep(c, n - 1, u));
      MulComm(a, u);
      MulShiftRight(a, b, n - 1);
    }
  }

  lemma {:induction false} MulAssoc(a: bv8, b: bv8, c: bv8)
    ensures Mul(Mul(a, b), c) == Mul(a, Mul(b, c))
  {
    hide MulBits;
    MulBitsAssoc(a, b, c, 8);
  }

  // ---------- the field laws ----------

  lemma {:induction false} ShiftChain(a: bv8)
    ensures Shift(a, 1) == Double(a)
    ensures Shift(a, 2) == Double(Shift(a, 1))
    ensures Shift(a, 3) == Double(Shift(a, 2))
    ensures Shift(a, 4) == Double(Shift(a, 3))
    ensures Shift(a, 5) == Double(Shift(a, 4))
    ensures Shift(a, 6) == Double(Shift(a, 5))
    ensures Shift(a, 7) == Double(Shift(a, 6))
  {
    hide Double;
  }

  lemma {:induction false} MulBitsChain(a: bv8, b: bv8)
    ensures MulBits(a, b, 2) == Add(Add(0, Keep(b, 0, Shift(a, 0))), Keep(b, 1, Shift(a, 1)))
    ensures MulBits(a, b, 4) == Add(Add(MulBits(a, b, 2), Keep(b, 2, Shift(a, 2))), Keep(b, 3, Shift(a, 3)))
    ensures MulBits(a, b, 6) == Add(Add(MulBits(a, b, 4), Keep(b, 4, Shift(a, 4))), Keep(b, 5, Shift(a, 5)))
    ensures MulBits(a, b, 8) == Add(Add(MulBits(a, b, 6), Keep(b, 6, Shift(a, 6))), Keep(b, 7, Shift(a, 7)))
  {
    hide Shift, Keep, Add;
    assert MulBits(a, b, 1) == Add(0, Keep(b, 0, Shift(a, 0)));
  }

  /** The product with all eight rounds written out. */
  function MulUnrolled(a: bv8, b: bv8): bv8 {
    var a1 := Double(a);
    var a2 := Double(a1);
    var a3 := Double(a2);
    var a4 := Double(a3);
    var a5 := Double(a4);
    var a6 := Double(a5);
    var a7 := Double(a6);
    Add(Add(Add(Add(Add(Add(Add(Add(0, Keep(b, 0, a)), Keep(b, 1, a1)), Keep(b, 2, a2)), Keep(b, 3, a3)),
                    Keep(b, 4, a4)), Keep(b, 5, a5)), Keep(b, 6, a6)), Keep(b, 7, a7))
  }

  lemma {:induction false} MulUnrolls(a: bv8, b: bv8)
    ensures Mul(a, b) == MulUnrolled(a, b)
  {
    ShiftChain(a);
    MulBitsChain(a, b);
    assert Shift(a, 0) == a;
    hide Shift, Double, Keep, Add, MulBits;
  }

  lemma {:induction false} OddFactors(a: bv8, b: bv8)
    requires a & 1 == 1 && b & 1 == 1
    ensures MulUnrolled(a, b) != 0
  {
    var a1 := Double(a);
    var a2 := Double(a1);
    var a3 := Double(a2);
    var a4 := Double(a3);
    var a5 := Double(a4);
    var a6 := Double(a5);
    OddFactorBits(a, a1, a2, a3, a4, a5, a6, Double(a6), b);
    hide Double, Keep, Add;
  }

  lemma {:induction false} OddFactorBits(a: bv8, a1: bv8, a2: bv8, a3: bv8, a4: bv8, a5: bv8, a6: bv8, a7: bv8, b: bv8)
    requires a & 1 == 1 && b & 1 == 1
    requires a1 == Double(a) && a2 == Double(a1) && a3 == Double(a2) && a4 == Double(a3)
    requires a5 == Double(a4) && a6 == Double(a5) && a7 == Double(a6)
    ensures Add(Add(Add(Add(Add(Add(Add(Add(0, Keep(b, 0, a)), Keep(b, 1, a1)), Keep(b, 2, a2)), Keep(b, 3, a3)),
                    Keep(b, 4, a4)), Keep(b, 5, a5)), Keep(b, 6, a6)), Keep(b, 7, a7)) != 0
  {}

  lemma {:induction false} OddPart(a: bv8) returns (odd: bv8, i: nat)
    requires a != 0
    ensures odd & 1 == 1 && a == Shift(odd, i)
    decreases a
  {
    if a & 1 == 1 {
      odd, i := a, 0;
    } else {
      assert a >> 1 < a && Double(a >> 1) == a && a >> 1 != 0;
      odd, i := OddPart(a >> 1);
      i := i + 1;
    }
  }

  lemma {:induction false} ShiftNonZero(a: bv8, i: nat)
    ensures Shift(a, i) == 0 <==> a == 0
  {
    if i > 0 {
      ShiftNonZero(a, i - 1);
      DoubleInjective(Shift(a, i - 1));
      hide Double;
    }
  }

  lemma {:induction false} NoZeroDivisors(a: bv8, b: bv8)
    ensures Mul(a, b) == 0 <==> a == 0 || b == 0
  {
    MulZero(a);
    MulZero(b);
    hide Mul, Shift;
    if a != 0 && b != 0 {
      var u, i := OddPart(a);
      var v, j := OddPart(b);
      MulShiftLeft(u, b, i);
      MulShiftRight(u, v, j);
      OddFactors(u, v);
      MulUnrolls(u, v);
      ShiftNonZero(Mul(u, v), j);
      ShiftNonZero(Mul(u, b), i);
    }
  }

  // ---------- the source's multiplication ----------

  /** The accumulator after the k most significant bits of y. */
  function Horner(x: bv8, y: bv8, k: nat): bv8
    requires k <= 8
  {
    if k == 0 then 0 else Add(Double(Horner(x, y, k - 1)), Keep(y, 8 - k, x))
  }

  lemma {:induction false} HornerIsMul(x: bv8, y: bv8, k: nat)
    requires k <= 8
    ensures Add(Shift(Horner(x, y, k), 8 - k), MulBits(x, y, 8 - k)) == Mul(x, y)
  {
    if k == 0 {
      ShiftZero(8);
      AddZero(Mul(x, y));
    } else {
      var h, m := Double(Horner(x, y, k - 1)), 8 - k;
      HornerIsMul(x, y, k - 1);
      hide Add, Keep;
      ShiftShift(Horner(x, y, k - 1), 1, m);
      assert Shift(Horner(x, y, k - 1), 1) == h;
      hide Double;
      ShiftAdds(h, Keep(y, m, x), m);
      KeepShifts(y, m, x, m);
      AddAssoc(Shift(h, m), Keep(y, m, Shift(x, m)), MulBits(x, y, m));
      AddComm(Keep(y, m, Shift(x, m)), MulBits(x, y, m));
    }
  }

  /** y shifted left k times in a register wide enough to lose no bit. */
  function WideShift(y: bv8, k: nat): bv16 {
    if k == 0 then y as bv16 else WideShift(y, k - 1) << 1
  }

  lemma {:induction false} WideShiftChain(y: bv8)
    ensures WideShift(y, 1) == (y as bv16) << 1
    ensures WideShift(y, 2) == WideShift(y, 1) << 1
    ensures WideShift(y, 3) == WideShift(y, 2) << 1
    ensures WideShift(y, 4) == WideShift(y, 3) << 1
    ensures WideShift(y, 5) == WideShift(y, 4) << 1
    ensures WideShift(y, 6) == WideShift(y, 5) << 1
    ensures WideShift(y, 7) == WideShift(y, 6) << 1
  {}

  lemma {:induction false} TopBit(x: bv8, y: bv8, k: nat)
    requires k < 8
    ensures Keep(y, 7 - k, x) == if WideShift(y, k) & 0x80 != 0 then x else 0
  {
    WideShiftChain(y);
    assert WideShift(y, 0) == y as bv16;
    hide WideShift;
    if k == 0 {} else if k == 1 {} else if k == 2 {} else if k == 3 {}
    else if k == 4 {} else if k == 5 {} else if k == 6 {} else {}
  }

  /** The accumulator after one round of the loop, in a register wide enough for 0x11D. */
  function Round(result: bv16, rest: bv16, x: bv8): bv16 {
    var doubled := (result << 1) ^ (if result & 0x80 != 0 then 0x11D else 0);
    if rest & 0x80 != 0 then doubled ^ (x as bv16) else doubled
  }

  lemma {:induction false} RoundBody(result: bv16, rest: bv16, x: bv8, doubled: bv16)
    requires doubled == (result << 1) ^ (if result & 0x80 != 0 then 0x11D else 0)
    ensures rest & 0x80 != 0 ==> Round(result, rest, x) == doubled ^ (x as bv16)
    ensures rest & 0x80 == 0 ==> Round(result, rest, x) == doubled
  {}

  lemma {:induction false} WideStep(h: bv8, x: bv8, result: bv16, rest: bv16, next: bv8)
    requires result == h as bv16
    requires next == Add(Double(h), if rest & 0x80 != 0 then x else 0)
    ensures Round(result, rest, x) == next as bv16
  {
    if rest & 0x80 != 0 {
      if h & 0x80 != 0 {} else {}
    } else {
      if h & 0x80 != 0 {} else {}
    }
  }

  lemma {:induction false} HornerNext(x: bv8, y: bv8, k: nat, add: bool)
    requires k < 8
    requires add <==> WideShift(y, k) & 0x80 != 0
    ensures Horner(x, y, k + 1) == Add(Double(Horner(x, y, k)), if add then x else 0)
  {
    TopBit(x, y, k);
    hide Add, Double, Keep, WideShift;
  }

  lemma {:induction false} WideShiftNext(y: bv8, k: nat)
    ensures WideShift(y, k + 1) == WideShift(y, k) << 1
  {}

  lemma {:induction false} EmptyCases(a: bv8, x: bv8, y: bv8)
    ensures Shift(a, 0) == a && MulBits(x, y, 0) == 0 && Horner(x, y, 0) == 0 && WideShift(y, 0) == y as bv16
  {
    hide Double, Keep, Add;
  }

  lemma {:induction false} HornerEnd(x: bv8, y: bv8)
    ensures Horner(x, y, 8) == Mul(x, y)
  {
    hide *;
    EmptyCases(Horner(x, y, 8), x, y);
    HornerIsMul(x, y, 8);
    AddZero(Horner(x, y, 8));
  }

  /** What the registers of the loop hold after k rounds. */
  ghost predicate AfterRounds(x: bv8, y: bv8, k: nat, h: bv8, result: bv16, rest: bv16)
    requires k <= 8
  {
    result == h as bv16 && h == Horner(x, y, k) && rest == WideShift(y, k)
  }

  lemma {:induction false} RoundsStart(x: bv8, y: bv8)
    ensures AfterRounds(x, y, 0, 0, 0, y as bv16)
  {
    EmptyCases(0, x, y);
    hide Horner, WideShift;
  }

  lemma {:induction false} RoundsStep(x: bv8, y: bv8, k: nat, h: bv8, result: bv16, rest: bv16) returns (next: bv8)
    requires k < 8 && AfterRounds(x, y, k, h, result, rest)
    ensures AfterRounds(x, y, k + 1, next, Round(result, rest, x), rest << 1)
  {
    hide Horner, WideShift, Double, Add, Keep, Round;
    next := Horner(x, y, k + 1);
    HornerNext(x, y, k, rest & 0x80 != 0);
    WideStep(h, x, result, rest, next);
    WideShiftNext(y, k);
  }

  lemma {:induction false} RoundsEnd(x: bv8, y: bv8, h: bv8, result: bv16, rest: bv16)
    requires AfterRounds(x, y, 8, h, result, rest)
    ensures result < 0x100 && result as bv8 == Mul(x, y)
  {
    HornerEnd(x, y);
    hide Horner, WideShift, Mul;
  }

  method Multiply(x: bv8, y: bv8) returns (product: bv8)
    ensures product == Mul(x, y)
  {
    hide *;
    var result: bv16 := 0;
    var rest := y as bv16;
    ghost var h: bv8 := 0;
    RoundsStart(x, y);
    for k := 0 to 8
      invariant AfterRounds(x, y, k, h, result, rest)
    {
      h := RoundsStep(x, y, k, h, result, rest);
      ghost var before := result;
      result := (result << 1) ^ (if result & 0x80 != 0 then 0x11D else 0);
      RoundBody(before, rest, x, result);
      if rest & 0x80 != 0 {
        result := result ^ (x as bv16);
      }
      rest := rest << 1;
    }
    RoundsEnd(x, y, h, result, rest);
    product := result as bv8;
  }
}
