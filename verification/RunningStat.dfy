/** Mean and standard deviation kept up to date one value at a time, without storing the values. */
module RunningStat {
  import opened Wrappers

  datatype Priors = Priors(M: real, S: real, n: nat)

  datatype Stat = Stat(M: real, S: real, MLast: real, SLast: real, n: nat)

  const EMPTY: Stat := Stat(0.0, 0.0, 0.0, 0.0, 0)

  function Start(priors: Option<Priors>): Stat {
    if priors.None? then EMPTY
    else Stat(priors.value.M, priors.value.S, priors.value.M, priors.value.S, priors.value.n)
  }

  /** One more value; past maxTrackable values the count stands still (a negative limit is none). */
  function Push(s: Stat, maxTrackable: int, x: real): Stat {
    var n := if maxTrackable < 0 || s.n < maxTrackable then s.n + 1 else s.n;
    if n == 0 then Stat(x, s.S, x, 0.0, n)
    else
      var M := s.MLast + (x - s.MLast) / n as real;
      var S := s.SLast + (x - s.MLast) * (x - M);
      Stat(M, S, M, S, n)
  }

  function PushAll(s: Stat, maxTrackable: int, data: seq<real>): Stat {
    if data == [] then s else Push(PushAll(s, maxTrackable, data[..|data| - 1]), maxTrackable, data[|data| - 1])
  }

  function Variance(s: Stat): real { if s.n >= 2 then s.S / (s.n as real - 1.0) else 0.0 }

  // ---------- the batch definitions ----------

  function Sum(data: seq<real>): real {
    if data == [] then 0.0 else Sum(data[..|data| - 1]) + data[|data| - 1]
  }

  function Mean(data: seq<real>): real
    requires data != []
  {
    Sum(data) / |data| as real
  }

  /** The sum of squared deviations from c. */
  function Deviation(data: seq<real>, c: real): real {
    if data == [] then 0.0
    else Deviation(data[..|data| - 1], c) + (data[|data| - 1] - c) * (data[|data| - 1] - c)
  }

  /** The state is exactly the statistics of these values. */
  ghost predicate Summarises(s: Stat, data: seq<real>) {
    && s.n == |data| && s.MLast == s.M && s.SLast == s.S
    && s.M * |data| as real == Sum(data)
    && s.S == Deviation(data, s.M)
  }

  function Square(d: real): real { d * d }

  /** By how much the squared deviations of n values with this sum grow when the centre moves from c to c + e. */
  function Shifted(n: real, sum: real, c: real, e: real): real { n * (e * e) - 2.0 * e * (sum - n * c) }

  lemma {:induction false} DeviationMoves(data: seq<real>, c: real, e: real)
    ensures Deviation(data, c + e) == Deviation(data, c) + Shifted(|data| as real, Sum(data), c, e)
  {
    hide Square, Shifted;
    if data != [] {
      var init, x := data[..|data| - 1], data[|data| - 1];
      DeviationMoves(init, c, e);
      LastStep(data, c);
      LastStep(data, c + e);
      ShiftedStep(|init| as real, Sum(init), x, c, e);
    } else {
      ShiftedNone(c, e);
    }
  }

  lemma {:induction false} LastStep(data: seq<real>, c: real)
    requires data != []
    ensures var init, x := data[..|data| - 1], data[|data| - 1];
            && Sum(data) == Sum(init) + x && |data| as real == |init| as real + 1.0
            && Deviation(data, c) == Deviation(init, c) + Square(x - c)
  {}

  lemma {:induction false} ShiftedNone(c: real, e: real)
    ensures Shifted(0.0, 0.0, c, e) == 0.0
  {}

  lemma {:induction false} ShiftedStep(n: real, t: real, x: real, c: real, e: real)
    ensures Shifted(n, t, c, e) + Square(x - (c + e)) == Square(x - c) + Shifted(n + 1.0, t + x, c, e)
  {
    SquareMoves(x, c, e);
    MovedTerms(n, t, x, c, e);
  }

  lemma {:induction false} SquareMoves(x: real, c: real, e: real)
    ensures (x - (c + e)) * (x - (c + e)) == (x - c) * (x - c) - 2.0 * e * (x - c) + e * e
  {}

  lemma {:induction false} MovedTerms(n: real, t: real, x: real, c: real, e: real)
    ensures - 2.0 * e * (t - n * c) + n * (e * e) - 2.0 * e * (x - c) + e * e
         == - 2.0 * e * (t + x - (n + 1.0) * c) + (n + 1.0) * (e * e)
  {}

  /** Dividing the step by the new count: with q = (x - m) / (n + 1). */
  lemma {:induction false} WelfordStep(n: real, m: real, x: real, q: real)
    requires (n + 1.0) * q == x - m
    ensures (m + q) * (n + 1.0) == m * n + x
    ensures n * (q * q) + (x - (m + q)) * (x - (m + q)) == (x - m) * (x - (m + q))
  {
    var d := n * q;
    assert x - (m + q) == d && x - m == d + q;
    assert n * (q * q) == d * q;
    assert d * q + d * d == (d + q) * d;
    assert (m + q) * (n + 1.0) == m * n + m + (n + 1.0) * q;
  }

  function NextCount(s: Stat, maxTrackable: int): nat {
    if maxTrackable < 0 || s.n < maxTrackable then s.n + 1 else s.n
  }

  /** A push in terms of the step q of the mean. */
  lemma {:induction false} PushForm(s: Stat, maxTrackable: int, x: real) returns (q: real)
    requires NextCount(s, maxTrackable) > 0
    ensures NextCount(s, maxTrackable) as real * q == x - s.MLast
    ensures var M, S := s.MLast + q, s.SLast + (x - s.MLast) * (x - (s.MLast + q));
            Push(s, maxTrackable, x) == Stat(M, S, M, S, NextCount(s, maxTrackable))
  {
    q := (x - s.MLast) / NextCount(s, maxTrackable) as real;
  }

  /** A push in terms of the count it leaves. */
  lemma {:induction false} PushIs(s: Stat, maxTrackable: int, x: real)
    ensures var n, r := NextCount(s, maxTrackable), Push(s, maxTrackable, x);
            if n == 0 then r == Stat(x, s.S, x, 0.0, 0)
            else
              var M := s.MLast + (x - s.MLast) / n as real;
              var S := s.SLast + (x - s.MLast) * (x - M);
              r == Stat(M, S, M, S, n)
  {}

  lemma {:induction false} SumStep(data: seq<real>, x: real, c: real)
    ensures Sum(data + [x]) == Sum(data) + x
    ensures Deviation(data + [x], c) == Deviation(data, c) + (x - c) * (x - c)
  {
    assert (data + [x])[..|data|] == data;
  }

  /** Pushing keeps the state equal to the batch statistics. */
  lemma {:induction false} PushSummarises(s: Stat, maxTrackable: int, data: seq<real>, x: real)
    requires Summarises(s, data) && (maxTrackable < 0 || |data| < maxTrackable)
    ensures Summarises(Push(s, maxTrackable, x), data + [x])
  {
    hide Push, Sum, Deviation;
    var n := |data| as real;
    var q := PushForm(s, maxTrackable, x);
    assert |data + [x]| as real == n + 1.0;
    SumStep(data, x, s.M + q);
    WelfordStep(n, s.M, x, q);
    DeviationMoves(data, s.M, q);
    MeanCancels(q, Sum(data), n, s.M);
  }

  lemma {:induction false} MeanCancels(e: real, t: real, n: real, m: real)
    requires m * n == t
    ensures 2.0 * e * (t - n * m) == 0.0
  {
    assert t - n * m == 0.0;
  }

  /** From no history, or from a true one, the state after any values is the mean and the squared deviations of all
      of them. */
  lemma {:induction false} WelfordIsExact(s: Stat, maxTrackable: int, history: seq<real>, data: seq<real>)
    requires Summarises(s, history) && (maxTrackable < 0 || |history| + |data| <= maxTrackable)
    ensures var r, all := PushAll(s, maxTrackable, data), history + data;
            && Summarises(r, all)
            && (all != [] ==> r.M == Mean(all) && r.S == Deviation(all, Mean(all)))
            && (|all| >= 2 ==> Variance(r) == Deviation(all, Mean(all)) / (|all| as real - 1.0))
  {
    hide Push, Sum, Deviation, Summarises;
    if data == [] {
      assert history + data == history;
    } else {
      var init, x := data[..|data| - 1], data[|data| - 1];
      WelfordIsExact(s, maxTrackable, history, init);
      var before := PushAll(s, maxTrackable, init);
      CountOf(before, history + init);
      PushSummarises(before, maxTrackable, history + init, x);
      assert (history + init) + [x] == history + data;
    }
    SummaryIsMean(PushAll(s, maxTrackable, data), history + data);
  }

  lemma {:induction false} CountOf(s: Stat, data: seq<real>)
    requires Summarises(s, data)
    ensures s.n == |data|
  {}

  lemma {:induction false} SummaryIsMean(r: Stat, all: seq<real>)
    requires Summarises(r, all)
    ensures all != [] ==> r.M == Mean(all) && r.S == Deviation(all, Mean(all))
    ensures |all| >= 2 ==> Variance(r) == Deviation(all, Mean(all)) / (|all| as real - 1.0)
  {
    hide Sum, Deviation;
    if all != [] { Undivide(r.M, |all| as real, Sum(all)); }
  }

  lemma {:induction false} Undivide(m: real, n: real, t: real)
    requires n > 0.0 && m * n == t
    ensures m == t / n
  {}

  lemma {:induction false} NothingIsSummarised()
    ensures Summarises(EMPTY, [])
  {}

  /** With no priors and no limit the state is the mean and the squared deviations of everything pushed. */
  lemma {:induction false} WelfordFromNothing(maxTrackable: int, data: seq<real>)
    requires maxTrackable < 0
    ensures var r := PushAll(Start(None), maxTrackable, data);
            && r.n == |data|
            && (data != [] ==> r.M == Mean(data) && r.S == Deviation(data, Mean(data)))
            && Variance(r) == if |data| >= 2 then Deviation(data, Mean(data)) / (|data| as real - 1.0) else 0.0
  {
    hide PushAll, Deviation, Sum;
    NothingIsSummarised();
    hide Summarises;
    WelfordIsExact(EMPTY, maxTrackable, [], data);
    assert [] + data == data;
    CountOf(PushAll(EMPTY, maxTrackable, data), data);
  }

  /** Started with the statistics of a history, the result is the statistics of the history and all that was pushed. */
  lemma {:induction false} WelfordFromPriors(history: seq<real>, maxTrackable: int, data: seq<real>)
    requires history != [] && (maxTrackable < 0 || |history| + |data| <= maxTrackable)
    ensures var priors := Priors(Mean(history), Deviation(history, Mean(history)), |history|);
            var r, all := PushAll(Start(Some(priors)), maxTrackable, data), history + data;
            && r.n == |all| && r.M == Mean(all) && r.S == Deviation(all, Mean(all))
            && (|all| >= 2 ==> Variance(r) == Deviation(all, Mean(all)) / (|all| as real - 1.0))
  {
    var priors := Priors(Mean(history), Deviation(history, Mean(history)), |history|);
    var s := Start(Some(priors));
    assert s.M * |history| as real == Sum(history);
    assert Summarises(s, history);
    hide Sum, Deviation, PushAll, Summarises, Variance;
    WelfordIsExact(s, maxTrackable, history, data);
    CountOf(PushAll(s, maxTrackable, data), history + data);
  }

  // ---------- with priors and limits ----------

  /** A state that counts something: the last values are current, and the deviation is not negative. */
  ghost predicate Sound(s: Stat) { s.n >= 1 && s.MLast == s.M && s.SLast == s.S && s.S >= 0.0 }

  lemma {:induction false} GainIsSquare(k: real, q: real)
    requires k >= 1.0
    ensures (k * q) * (k * q - q) >= 0.0
  {
    var e := k * q - q;
    assert e == (k - 1.0) * q;
    assert (k * q) * ((k - 1.0) * q) == (q * q) * (k * (k - 1.0));
    Nonnegative(k, k - 1.0);
    Nonnegative(q * q, k * (k - 1.0));
  }

  lemma {:induction false} Nonnegative(a: real, b: real)
    requires a >= 0.0 && b >= 0.0
    ensures a * b >= 0.0
  {}

  lemma {:induction false} PushIsSound(s: Stat, maxTrackable: int, x: real)
    requires Sound(s) || (s == EMPTY && maxTrackable != 0)
    ensures var r := Push(s, maxTrackable, x); Sound(r) && r.S >= s.S && r.n >= s.n
    ensures maxTrackable >= 0 && s.n >= maxTrackable ==> Push(s, maxTrackable, x).n == s.n
  {
    hide Push;
    var q := PushForm(s, maxTrackable, x);
    var k := NextCount(s, maxTrackable) as real;
    var d, e := x - s.MLast, x - (s.MLast + q);
    GainIsPositive(k, q, d, e);
    var r := Push(s, maxTrackable, x);
    assert r.S == s.SLast + d * e;
    assert r.n >= 1 && r.MLast == r.M && r.SLast == r.S;
  }

  lemma {:induction false} GainIsPositive(k: real, q: real, d: real, e: real)
    requires k >= 1.0 && d == k * q && e == d - q
    ensures d * e >= 0.0
  {
    GainIsSquare(k, q);
  }

  /** With a prior and a positive limit, or none, the deviation never falls, so a standard deviation always exists. */
  lemma {:induction false} DeviationNeverFalls(s: Stat, maxTrackable: int, data: seq<real>)
    requires Sound(s) || (s == EMPTY && maxTrackable != 0)
    ensures var r := PushAll(s, maxTrackable, data); r.S >= s.S >= 0.0 && r.n >= s.n && Variance(r) >= 0.0
    ensures data != [] || Sound(s) ==> Sound(PushAll(s, maxTrackable, data))
  {
    hide Push;
    if data != [] {
      var init := data[..|data| - 1];
      DeviationNeverFalls(s, maxTrackable, init);
      PushIsSound(PushAll(s, maxTrackable, init), maxTrackable, data[|data| - 1]);
    }
    VarianceOfSound(PushAll(s, maxTrackable, data));
  }

  lemma {:induction false} VarianceOfSound(s: Stat)
    requires s.S >= 0.0
    ensures Variance(s) >= 0.0
  {
    if s.n >= 2 { DivideMonotone(0.0, s.S, s.n as real - 1.0); }
  }

  /** Once the count has reached the limit the variance never falls either: nothing is forgotten. */
  lemma {:induction false} CappedVarianceNeverFalls(s: Stat, maxTrackable: int, data: seq<real>)
    requires Sound(s) && 0 <= maxTrackable <= s.n
    ensures var r := PushAll(s, maxTrackable, data); r.n == s.n && Variance(r) >= Variance(s)
  {
    hide Push;
    if data != [] {
      var init := data[..|data| - 1];
      CappedVarianceNeverFalls(s, maxTrackable, init);
      DeviationNeverFalls(s, maxTrackable, init);
      var before := PushAll(s, maxTrackable, init);
      PushIsSound(before, maxTrackable, data[|data| - 1]);
      if s.n >= 2 { DivideMonotone(before.S, Push(before, maxTrackable, data[|data| - 1]).S, s.n as real - 1.0); }
    }
  }

  lemma {:induction false} DivideMonotone(a: real, b: real, k: real)
    requires a <= b && k > 0.0
    ensures a / k <= b / k
  {}

  // ---------- the filter ----------

  /** Values are let through when they do not widen the spread of all values so far. */
  predicate Accepts(raw: Stat, x: real) { Variance(Push(raw, -1, x)) <= Variance(raw) }

  lemma {:induction false} CrossMultiply(a: real, b: real, k: real)
    requires k > 0.0
    ensures a / k <= b <==> a <= b * k
  {}

  /** The gain of the deviation, times n + 1, is n times the squared distance from the mean. */
  lemma {:induction false} GainIs(d: real, n: real)
    requires n >= 0.0
    ensures (n + 1.0) * (d * (d - d / (n + 1.0))) == n * (d * d)
  {
    var q := d / (n + 1.0);
    assert d == q * (n + 1.0);
    assert d - q == q * n;
    assert (n + 1.0) * (d * (q * n)) == n * (d * ((n + 1.0) * q));
  }

  /**
   * When a value passes: always if it is the first one; if it is the second one, when the deviation and half its
   * squared distance from the mean are together not positive; later, when its squared distance from the mean is at
   * most (n + 1) / n times the variance.
   */
  lemma {:induction false} AcceptsExactly(raw: Stat, x: real)
    requires raw.MLast == raw.M && raw.SLast == raw.S && raw.S >= 0.0
    ensures var n, d := raw.n as real, x - raw.M;
            Accepts(raw, x) <==>
              if raw.n == 0 then true
              else if raw.n == 1 then raw.S + d * d / 2.0 <= 0.0
              else n * (d * d) <= (n + 1.0) * Variance(raw)
  {
    if raw.n == 1 {
      SecondValue(raw, x);
    } else if raw.n >= 2 {
      LaterValue(raw, x);
    }
  }

  lemma {:induction false} SecondValue(raw: Stat, x: real)
    requires raw.MLast == raw.M && raw.SLast == raw.S && raw.n == 1
    ensures var d := x - raw.M; Accepts(raw, x) <==> raw.S + d * d / 2.0 <= 0.0
  {
    var d := x - raw.M;
    assert x - Push(raw, -1, x).M == d / 2.0;
    assert d * (d / 2.0) == d * d / 2.0;
  }

  lemma {:induction false} LaterValue(raw: Stat, x: real)
    requires raw.MLast == raw.M && raw.SLast == raw.S && raw.n >= 2
    ensures var n, d := raw.n as real, x - raw.M; Accepts(raw, x) <==> n * (d * d) <= (n + 1.0) * Variance(raw)
  {
    var n, d := raw.n as real, x - raw.M;
    var gain, v := d * (d - d / (n + 1.0)), Variance(raw);
    var r := Push(raw, -1, x);
    assert r.n as real - 1.0 == n && r.S == raw.S + gain by {
      assert x - r.M == d - d / (n + 1.0);
    }
    CrossMultiply(raw.S + gain, v, n);
    assert v * (n - 1.0) == raw.S;
    assert raw.S + gain <= v * n <==> gain <= v;
    GainIs(d, n);
    Scale(gain, v, n + 1.0);
  }

  lemma {:induction false} Scale(a: real, b: real, k: real)
    requires k > 0.0
    ensures a <= b <==> k * a <= k * b
  {}

  // ---------- the objects ----------

  class Tracker {
    const maxTrackable: int
    var M: real
    var S: real
    var MLast: real
    var SLast: real
    var n: nat

    ghost function Now(): Stat
      reads this
    {
      Stat(M, S, MLast, SLast, n)
    }

    constructor (priors: Option<Priors>, maxTrackable: int)
      ensures Now() == Start(priors) && this.maxTrackable == maxTrackable
    {
      this.maxTrackable := maxTrackable;
      if priors.Some? {
        M, S, n := priors.value.M, priors.value.S, priors.value.n;
        MLast, SLast := priors.value.M, priors.value.S;
      } else {
        M, S, MLast, SLast, n := 0.0, 0.0, 0.0, 0.0, 0;
      }
    }

    method Reset()
      modifies this
      ensures Now() == EMPTY
    {
      M, S, MLast, SLast, n := 0.0, 0.0, 0.0, 0.0, 0;
    }

    method PushData(x: real)
      modifies this
      ensures Now() == Push(old(Now()), maxTrackable, x)
    {
      PushIs(Now(), maxTrackable, x);
      hide Push;
      if maxTrackable < 0 || n < maxTrackable {
        n := n + 1;
      }
      if n == 0 {
        MLast := x;
        M := MLast;
        SLast := 0.0;
      } else {
        M := MLast + (x - MLast) / n as real;
        S := SLast + (x - MLast) * (x - M);
        MLast := M;
        SLast := S;
      }
    }

    function CurrentVariance(): (v: real)
      reads this
      ensures v == Variance(Stat(M, S, MLast, SLast, n))
    {
      if n >= 2 then S / (n as real - 1.0) else 0.0
    }
  }

  class Filter {
    const rawStat: Tracker
    const filteredStat: Tracker

    ghost predicate Valid() { rawStat != filteredStat && rawStat.maxTrackable == -1 }

    constructor (rawPriors: Option<Priors>, filteredPriors: Option<Priors>, maxTrackable: int)
      ensures Valid() && fresh(rawStat) && fresh(filteredStat)
      ensures rawStat.Now() == Start(rawPriors) && filteredStat.Now() == Start(filteredPriors)
      ensures filteredStat.maxTrackable == maxTrackable
    {
      rawStat := new Tracker(rawPriors, -1);
      filteredStat := new Tracker(filteredPriors, maxTrackable);
    }

    /** Takes every value into the raw statistics, and the accepted ones into the filtered statistics. */
    method PushAndUpdate(x: real)
      requires Valid()
      modifies rawStat, filteredStat
      ensures rawStat.Now() == Push(old(rawStat.Now()), -1, x)
      ensures filteredStat.Now() ==
                if Accepts(old(rawStat.Now()), x) then Push(old(filteredStat.Now()), filteredStat.maxTrackable, x)
                else old(filteredStat.Now())
    {
      var last := rawStat.CurrentVariance();
      rawStat.PushData(x);
      if rawStat.CurrentVariance() - last <= 0.0 {
        filteredStat.PushData(x);
      }
    }
  }
}
