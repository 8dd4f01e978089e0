/** A ring of block means: the mean of the most recent complete blocks, with or without the block being filled. */
module BlockAverage {
  import opened Arith
  import opened RunningStat
  import opened Wrappers

  // ---------- blocks of a history ----------

  /** The means of the full blocks of the data, oldest first. */
  function BlockMeans(data: seq<real>, size: nat): seq<real>
    requires size > 0
  {
    if |data| < size then [] else [Mean(data[..size])] + BlockMeans(data[size..], size)
  }

  /** The data of the block that is not full yet. */
  function Partial(data: seq<real>, size: nat): (rest: seq<real>)
    requires size > 0
    ensures |rest| < size
  {
    if |data| < size then data else Partial(data[size..], size)
  }

  /** One more value goes into the partial block, and closes it when it is the last one. */
  lemma {:induction false} DataGrows(data: seq<real>, size: nat, x: real)
    requires size > 0
    ensures var block := Partial(data, size) + [x];
            if |block| < size then
              BlockMeans(data + [x], size) == BlockMeans(data, size) && Partial(data + [x], size) == block
            else
              BlockMeans(data + [x], size) == BlockMeans(data, size) + [Mean(block)] && Partial(data + [x], size) == []
  {
    var all := data + [x];
    if |data| < size {
      if |all| == size {
        assert all[..size] == all && all[size..] == [];
      }
    } else {
      assert all[..size] == data[..size] && all[size..] == data[size..] + [x];
      DataGrows(data[size..], size, x);
      hide Mean;
    }
  }

  /** Block k is the mean of the k-th run of consecutive values, and there are as many as fit. */
  lemma {:induction false} BlockMeansAt(data: seq<real>, size: nat, k: nat)
    requires size > 0 && (k + 1) * size <= |data|
    ensures 0 <= k * size <= (k + 1) * size
    ensures k < |BlockMeans(data, size)| && BlockMeans(data, size)[k] == Mean(data[k * size..(k + 1) * size])
  {
    Arith.MulMonotone(k, k + 1, size);
    Arith.MulMonotone(1, k + 1, size);
    assert |data| >= size;
    if k == 0 {
      assert 0 * size == 0 && 1 * size == size;
      assert data[0..size] == data[..size];
    } else {
      var rest := data[size..];
      assert (k + 1) * size == k * size + size && k * size == (k - 1) * size + size;
      BlockMeansAt(rest, size, k - 1);
      var lo, hi := (k - 1) * size, k * size;
      assert rest[lo..hi] == data[lo + size..hi + size];
    }
  }

  /** Blocks restored from an earlier run count as complete, with the initial value. */
  function Restored(n: nat, initial: real): (r: seq<real>)
    ensures |r| == n
  {
    seq(n, k => initial)
  }

  // ---------- sums in another order ----------

  lemma {:induction false} SumConcat(a: seq<real>, b: seq<real>)
    ensures Sum(a + b) == Sum(a) + Sum(b)
  {
    if b == [] {
      assert a + b == a;
    } else {
      var init := b[..|b| - 1];
      assert (a + b)[..|a + b| - 1] == a + init;
      SumConcat(a, init);
    }
  }

  lemma {:induction false} DeviationConcat(a: seq<real>, b: seq<real>, c: real)
    ensures Deviation(a + b, c) == Deviation(a, c) + Deviation(b, c)
  {
    if b == [] {
      assert a + b == a;
    } else {
      var init := b[..|b| - 1];
      assert (a + b)[..|a + b| - 1] == a + init;
      DeviationConcat(a, init, c);
    }
  }

  /** Mean and spread do not depend on where a ring of values is cut. */
  lemma {:induction false} RotationKeepsMean(a: seq<real>, b: seq<real>, c: seq<real>)
    requires a + b + c != []
    ensures Mean(a + b + c) == Mean(b + a + c)
    ensures Spread(a + b + c) == Spread(b + a + c)
  {
    SumConcat(a, b);
    SumConcat(b, a);
    SumConcat(a + b, c);
    SumConcat(b + a, c);
    var m := Mean(a + b + c);
    DeviationConcat(a, b, m);
    DeviationConcat(b, a, m);
    DeviationConcat(a + b, c, m);
    DeviationConcat(b + a, c, m);
  }

  /** The population variance. */
  function Spread(data: seq<real>): real
    requires data != []
  {
    Deviation(data, Mean(data)) / |data| as real
  }

  // ---------- the ring ----------

  function Last(s: seq<real>, n: nat): seq<real> { if n <= |s| then s[|s| - n..] else s }

  /** The slots other than b, from the one after b around. */
  function Around(values: seq<real>, b: nat): seq<real>
    requires b < |values|
  {
    values[b + 1..] + values[..b]
  }

  /** The ring holds the latest completed blocks; slot b is the next to be overwritten. */
  ghost predicate Holds(values: seq<real>, b: nat, completed: seq<real>) {
    && b < |values|
    && if |completed| < |values| then b == |completed| && completed == values[..b]
       else b == |completed| % |values| && Last(completed, |values| - 1) == Around(values, b)
  }

  lemma {:induction false} RingIndex(n: nat, size: nat)
    requires size > 0
    ensures (n + 1) % size == if n % size + 1 == size then 0 else n % size + 1
  {
    var q, r := n / size, n % size;
    assert n == q * size + r;
    if r + 1 == size {
      assert n + 1 == (q + 1) * size;
      DivUnique(n + 1, size, q + 1, 0);
    } else {
      assert n + 1 == q * size + (r + 1);
      DivUnique(n + 1, size, q, r + 1);
    }
  }

  /** Writing the slot that is next does not disturb the others. */
  lemma {:induction false} HoldsWhileFilling(values: seq<real>, b: nat, completed: seq<real>, v: real)
    requires Holds(values, b, completed)
    ensures Holds(values[b := v], b, completed)
  {
    assert values[b := v][..b] == values[..b] && values[b := v][b + 1..] == values[b + 1..];
  }

  lemma {:induction false} LastGrows(s: seq<real>, n: nat, x: real)
    requires 0 < n <= |s|
    ensures Last(s + [x], n) == Last(s, n)[1..] + [x]
  {}

  lemma {:induction false} StillFilling(values: seq<real>, completed: seq<real>)
    requires |completed| < |values| && completed == values[..|completed|]
    ensures var b, all := |completed|, completed + [values[|completed|]];
            && (b + 1 < |values| ==> all == values[..b + 1])
            && (b + 1 == |values| ==> all == values && Last(all, b) == Around(values, 0))
  {
    var b, all := |completed|, completed + [values[|completed|]];
    assert all == values[..b + 1];
    if b + 1 == |values| {
      assert values[..b + 1] == values;
      assert Around(values, 0) == values[1..] + [];
    }
  }

  lemma {:induction false} AroundMoves(values: seq<real>, b: nat)
    requires b < |values| && |values| > 1
    ensures Around(values, b)[1..] + [values[b]] == Around(values, if b + 1 < |values| then b + 1 else 0)
  {
    if b + 1 < |values| {
      assert values[b + 1..][1..] == values[b + 2..] && values[..b + 1] == values[..b] + [values[b]];
    } else {
      assert values[..b][1..] + [values[b]] == values[1..];
      assert values[b + 1..] == [] && values[..0] == [];
    }
  }

  /** A finished block is the newest of the ring. */
  lemma {:induction false} HoldsAfterBlock(values: seq<real>, b: nat, completed: seq<real>)
    requires Holds(values, b, completed)
    ensures Holds(values, (b + 1) % |values|, completed + [values[b]])
  {
    hide Around, Last;
    var n, x := |values|, values[b];
    RingIndex(|completed|, n);
    Successor(b, n);
    if |completed| < n {
      Successor(|completed|, n);
      StillFilling(values, completed);
      WholeTurn(n);
    } else if n > 1 {
      LastGrows(completed, n - 1, x);
      AroundMoves(values, b);
    } else {
      LastOfNone(completed + [x]);
      AroundOne(values);
    }
  }

  lemma {:induction false} Successor(b: nat, n: nat)
    requires b < n
    ensures (b + 1) % n == if b + 1 == n then 0 else b + 1
  {
    if b + 1 == n { WholeTurn(n); } else { DivUnique(b + 1, n, 0, b + 1); }
  }

  lemma {:induction false} WholeTurn(n: nat)
    requires n > 0
    ensures n % n == 0
  {
    DivUnique(n, n, 1, 0);
  }

  lemma {:induction false} LastOfNone(s: seq<real>)
    ensures Last(s, 0) == []
  {}

  lemma {:induction false} AroundOne(values: seq<real>)
    requires |values| == 1
    ensures Around(values, 0) == []
  {}

  // ---------- what the reader gets ----------

  /** The blocks the valid mean is taken over. */
  function Recent(completed: seq<real>, numBlocks: nat): seq<real>
    requires numBlocks > 0
  {
    Last(completed, numBlocks - 1)
  }

  /** The mean of n + 1 values, from the mean of n of them and the last one. */
  function Blend(n: nat, mean: real, x: real): real {
    (n as real * mean + x) / (n as real + 1.0)
  }

  function MeanOf(data: seq<real>): Option<real> { if data == [] then None else Some(Mean(data)) }

  function SpreadOf(data: seq<real>): Option<real> { if data == [] then None else Some(Spread(data)) }

  /** The values of the first slots, in order, without slot b. */
  function ValidSlots(values: seq<real>, valid: nat, b: nat): seq<real>
    requires valid <= |values|
  {
    if valid == 0 then []
    else ValidSlots(values, valid - 1, b) + (if valid - 1 != b then [values[valid - 1]] else [])
  }

  lemma {:induction false} LastOf(values: seq<real>, from: nat, to: nat)
    requires from <= to <= |values|
    ensures from < to ==> values[from..to] == values[from..to - 1] + [values[to - 1]]
    ensures from == to ==> values[from..to] == []
  {}

  lemma {:induction false} ValidSlotsAre(values: seq<real>, valid: nat, b: nat)
    requires valid <= |values|
    ensures ValidSlots(values, valid, b) == if b < valid then values[..b] + values[b + 1..valid] else values[..valid]
  {
    if valid > 0 {
      ValidSlotsAre(values, valid - 1, b);
      hide ValidSlots;
      LastOf(values, 0, valid);
      if b < valid { LastOf(values, b + 1, valid); }
    }
  }

  lemma {:induction false} SlotsAreRecent(values: seq<real>, b: nat, completed: seq<real>, tail: seq<real>)
    requires Holds(values, b, completed)
    ensures var valid := Least(|completed|, |values|);
            var slots, recent := ValidSlots(values, valid, b) + tail, Recent(completed, |values|) + tail;
            MeanOf(slots) == MeanOf(recent) && SpreadOf(slots) == SpreadOf(recent)
  {
    hide Mean, Spread, ValidSlots;
    var n := |values|;
    if |completed| < n {
      ValidSlotsAre(values, |completed|, b);
      assert completed[|completed| - |completed|..] == completed;
      assert ValidSlots(values, |completed|, b) == completed == Recent(completed, n);
    } else {
      var front, back := values[..b], values[b + 1..];
      ValidSlotsAre(values, n, b);
      assert values[b + 1..n] == back;
      assert ValidSlots(values, n, b) == front + back && Recent(completed, n) == back + front;
      assert (front + back == [] <==> back + front == []);
      if front + back + tail != [] {
        RotationKeepsMean(front, back, tail);
      }
    }
  }

  lemma {:induction false} HoldsRestored(n: nat, valid: nat, initial: real)
    requires n > 0 && valid <= n
    ensures Holds(Restored(n, initial), valid % n, Restored(valid, initial))
  {
    var values, restored := Restored(n, initial), Restored(valid, initial);
    if valid < n {
      DivUnique(valid, n, 0, valid);
      assert values[..valid] == restored;
    } else {
      WholeTurn(n);
      assert Last(restored, n - 1) == Around(values, 0);
    }
  }

  /** The ring after all of the data: block means in their slots, the partial block in slot b. */
  ghost predicate Tracks(values: seq<real>, b: nat, idx: nat, valid: nat, restored: seq<real>, data: seq<real>,
      size: nat) {
    && size > 0
    && Holds(values, b, restored + BlockMeans(data, size))
    && valid == Least(|restored + BlockMeans(data, size)|, |values|)
    && idx == |Partial(data, size)|
    && (idx > 0 ==> values[b] == Mean(Partial(data, size)))
  }

  /** What one more value does to the ring. */
  lemma {:induction false} UpdateTracks(values: seq<real>, b: nat, idx: nat, valid: nat, restored: seq<real>,
      data: seq<real>, size: nat, x: real)
    requires Tracks(values, b, idx, valid, restored, data, size)
    ensures b < |values| && size > 0
    ensures (idx + 1) % size == if idx + 1 == size then 0 else idx + 1
    ensures var written := values[b := Blend(idx, values[b], x)];
            && (idx + 1 == size ==>
                  Tracks(written, (b + 1) % |values|, 0, Least(valid + 1, |values|), restored, data + [x], size))
            && (idx + 1 != size ==> Tracks(written, b, idx + 1, valid, restored, data + [x], size))
  {
    hide Mean, Holds, BlockMeans, Partial, Blend;
    var completed, partial := restored + BlockMeans(data, size), Partial(data, size);
    HoldsBound(values, b, completed);
    var mean := Blend(idx, values[b], x);
    MeanGrows(partial, values[b], x);
    assert |partial + [x]| == idx + 1;
    assert Mean(partial + [x]) == mean;
    DataGrows(data, size, x);
    Successor(idx, size);
    HoldsWhileFilling(values, b, completed, mean);
    var written := values[b := mean];
    assert written[b] == mean;
    if idx + 1 == size {
      HoldsAfterBlock(written, b, completed);
      assert completed + [mean] == restored + (BlockMeans(data, size) + [mean]);
    }
  }

  lemma {:induction false} TracksIs(values: seq<real>, b: nat, idx: nat, valid: nat, restored: seq<real>,
      data: seq<real>, size: nat)
    requires Tracks(values, b, idx, valid, restored, data, size)
    ensures size > 0 && b < |values| && valid <= |values| && Holds(values, b, restored + BlockMeans(data, size))
    ensures valid == Least(|restored + BlockMeans(data, size)|, |values|)
    ensures idx == |Partial(data, size)| && (idx > 0 ==> values[b] == Mean(Partial(data, size)))
  {
    hide Mean, BlockMeans, Partial;
  }

  class Ring {
    const numBlocks: nat
    const blockSize: nat
    const values: array<real>
    var blockIdx: nat
    var idx: nat
    var validBlocks: nat
    ghost const restored: seq<real>
    ghost var data: seq<real>

    /** The completed blocks, those restored from an earlier run first. */
    ghost function Completed(): seq<real>
      reads this
      requires blockSize > 0
    {
      restored + BlockMeans(data, blockSize)
    }

    ghost predicate Valid()
      reads this, values
    {
      && numBlocks > 0 && values.Length == numBlocks
      && Tracks(values[..], blockIdx, idx, validBlocks, restored, data, blockSize)
    }

    constructor (numBlocks: nat, blockSize: nat, validBlocks: nat, initialValue: real)
      requires numBlocks > 0 && blockSize > 0 && validBlocks <= numBlocks
      ensures Valid() && fresh(values) && data == []
      ensures this.numBlocks == numBlocks && this.blockSize == blockSize
      ensures restored == Restored(validBlocks, initialValue)
    {
      this.numBlocks, this.blockSize := numBlocks, blockSize;
      blockIdx := validBlocks % numBlocks;
      idx := 0;
      values := new real[numBlocks](k => initialValue);
      this.validBlocks := validBlocks;
      restored := Restored(validBlocks, initialValue);
      data := [];
      new;
      hide Holds, Mean;
      assert Completed() == restored;
      assert values[..] == Restored(numBlocks, initialValue);
      HoldsRestored(numBlocks, validBlocks, initialValue);
    }

    method Update(value: real)
      requires Valid()
      modifies `blockIdx, `idx, `validBlocks, `data, values
      ensures Valid() && data == old(data) + [value]
    {
      hide Tracks, Least, Holds, Mean, BlockMeans, Partial, Blend;
      ghost var before := values[..];
      UpdateTracks(before, blockIdx, idx, validBlocks, restored, data, blockSize, value);
      TracksIs(before, blockIdx, idx, validBlocks, restored, data, blockSize);
      values[blockIdx] := Blend(idx, values[blockIdx], value);
      assert values[..] == before[blockIdx := Blend(idx, before[blockIdx], value)];
      data := data + [value];
      idx := (idx + 1) % blockSize;
      if idx == 0 {
        blockIdx := (blockIdx + 1) % numBlocks;
        validBlocks := Least(validBlocks + 1, numBlocks);
      }
    }

    /** Mean and spread of the recent complete blocks, and of those and the block being filled. */
    method Get() returns (validMean: Option<real>, validSpread: Option<real>,
                          currentMean: Option<real>, currentSpread: Option<real>)
      requires Valid()
      ensures var recent := Recent(Completed(), numBlocks);
              && validMean == (if recent == [] then None else Some(Mean(recent)))
              && validSpread == (if recent == [] then None else Some(Spread(recent)))
      ensures var partial := Partial(data, blockSize);
              var current := Recent(Completed(), numBlocks) + (if partial == [] then [] else [Mean(partial)]);
              && currentMean == (if current == [] then None else Some(Mean(current)))
              && currentSpread == (if current == [] then None else Some(Spread(current)))
    {
      hide Mean, Spread, Tracks, Holds, BlockMeans, Partial;
      var all := values[..];
      TracksIs(all, blockIdx, idx, validBlocks, restored, data, blockSize);
      var valid := ValidSlots(all, validBlocks, blockIdx);
      var current := valid + (if idx > 0 then [all[blockIdx]] else []);
      SlotsAreRecent(all, blockIdx, Completed(), []);
      SlotsAreRecent(all, blockIdx, Completed(), if idx > 0 then [all[blockIdx]] else []);
      assert valid + [] == valid && Recent(Completed(), numBlocks) + [] == Recent(Completed(), numBlocks);
      return MeanOf(valid), SpreadOf(valid), MeanOf(current), SpreadOf(current);
    }
  }

  lemma {:induction false} HoldsBound(values: seq<real>, b: nat, completed: seq<real>)
    requires Holds(values, b, completed)
    ensures b < |values|
  {}

  /** The running mean of a block, from the mean of what it holds so far. */
  lemma {:induction false} MeanGrows(data: seq<real>, mean: real, x: real)
    requires data != [] ==> mean == Mean(data)
    ensures Mean(data + [x]) == Blend(|data|, mean, x)
  {
    assert (data + [x])[..|data|] == data;
    var n := |data| as real;
    assert |data + [x]| as real == n + 1.0;
    if data == [] {
      assert n * mean == 0.0;
    } else {
      MultiplyBack(Sum(data), n);
    }
    assert Sum(data + [x]) == n * mean + x;
  }

  lemma {:induction false} MultiplyBack(t: real, n: real)
    requires n > 0.0
    ensures n * (t / n) == t
  {}
}
