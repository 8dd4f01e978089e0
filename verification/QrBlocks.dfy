/** Splitting data codewords into Reed-Solomon blocks and interleaving the blocks. */
module QrBlocks {
  import opened QrTables
  import opened ReedSolomon
  import opened Poly
  import Distance

  /** Where the data of block b starts: short blocks come first. */
  function Offset(version: Version, b: nat): int
    requires NumBlocks(version) > 0
  {
    b * ShortData(version) + (if b < NumShort(version) then 0 else b - NumShort(version))
  }

  function DataLen(version: Version, b: nat): int
    requires NumBlocks(version) > 0
  {
    ShortData(version) + (if b < NumShort(version) then 0 else 1)
  }

  lemma {:induction false} RowsTile(b: nat, s: nat, n: nat)
    requires b < n
    ensures 0 <= b * s && (b + 1) * s == b * s + s && (b + 1) * s <= n * s
  {
    assert (n - (b + 1)) * s >= 0;
    assert n * s == (n - (b + 1)) * s + (b + 1) * s;
  }

  lemma {:induction false} OffsetsTile(version: Version, b: nat)
    requires NumBlocks(version) > 0 && b < NumBlocks(version)
    ensures 0 <= Offset(version, b) && 0 < DataLen(version, b)
    ensures Offset(version, b) + DataLen(version, b) == Offset(version, b + 1) <= Capacity(version)
    ensures Offset(version, 0) == 0 && Offset(version, NumBlocks(version)) == Capacity(version)
  {
    TablesAreConsistent(version);
    hide Capacity, ShortData, NumShort, NumBlocks;
    var s, n := ShortData(version), NumBlocks(version);
    RowsTile(b, s, n);
  }

  /** The data of block b. */
  function BlockData(data: seq<bv8>, version: Version, b: nat): (block: seq<bv8>)
    requires NumBlocks(version) > 0 && |data| == Capacity(version) && b < NumBlocks(version)
    ensures |block| == DataLen(version, b)
  {
    OffsetsTile(version, b);
    data[Offset(version, b)..Offset(version, b) + DataLen(version, b)]
  }

  /** The error-correction bytes of block b. */
  function BlockEcc(data: seq<bv8>, version: Version, b: nat): (ecc: seq<bv8>)
    requires NumBlocks(version) > 0 && EccLen(version) > 0 && |data| == Capacity(version) && b < NumBlocks(version)
    ensures |ecc| == EccLen(version)
  {
    Remainder(BlockData(data, version, b), Generator(EccLen(version))[1..])
  }

  // ---------- interleaving ----------

  type Blocks = seq<seq<bv8>>

  /** Entry i of each of the first b blocks; blocks that are too short contribute nothing. */
  function Column(blocks: Blocks, i: nat, b: nat): seq<bv8>
    requires b <= |blocks|
  {
    if b == 0 then []
    else Column(blocks, i, b - 1) + (if i < |blocks[b - 1]| then [blocks[b - 1][i]] else [])
  }

  /** The first columns, one after the other. */
  function Interleave(blocks: Blocks, columns: nat): seq<bv8> {
    if columns == 0 then [] else Interleave(blocks, columns - 1) + Column(blocks, columns - 1, |blocks|)
  }

  /** All blocks reach index i, except the first `absent` ones. */
  lemma {:induction false} ColumnAt(blocks: Blocks, i: nat, b: nat, absent: nat)
    requires absent <= |blocks| && b <= |blocks|
    requires forall c :: 0 <= c < absent ==> |blocks[c]| <= i
    requires forall c :: absent <= c < |blocks| ==> |blocks[c]| > i
    ensures |Column(blocks, i, b)| == if b < absent then 0 else b - absent
    ensures forall c :: absent <= c < b ==> Column(blocks, i, b)[c - absent] == blocks[c][i]
  {
    if b > 0 {
      ColumnAt(blocks, i, b - 1, absent);
    }
  }

  lemma {:induction false} InterleaveLength(blocks: Blocks, columns: nat)
    requires forall c :: 0 <= c < |blocks| ==> |blocks[c]| >= columns
    ensures |Interleave(blocks, columns)| == columns * |blocks|
  {
    if columns > 0 {
      InterleaveLength(blocks, columns - 1);
      ColumnAt(blocks, columns - 1, |blocks|, 0);
      assert columns * |blocks| == (columns - 1) * |blocks| + |blocks|;
    }
  }

  /** Columns that every block reaches form a table. */
  lemma {:induction false} InterleaveAt(blocks: Blocks, columns: nat, i: nat, b: nat)
    requires forall c :: 0 <= c < |blocks| ==> |blocks[c]| >= columns
    requires i < columns && b < |blocks|
    ensures 0 <= i * |blocks| + b < |Interleave(blocks, columns)|
    ensures Interleave(blocks, columns)[i * |blocks| + b] == blocks[b][i]
  {
    hide Interleave, Column;
    NextColumn(blocks, columns - 1);
    var previous := Interleave(blocks, columns - 1);
    if i < columns - 1 {
      InterleaveAt(blocks, columns - 1, i, b);
    } else {
      InterleaveLength(blocks, i);
      ColumnAt(blocks, i, |blocks|, 0);
      assert |previous| == i * |blocks|;
    }
  }

  // ---------- the codewords of a symbol ----------

  /** The first b data blocks. */
  function DataBlocks(data: seq<bv8>, version: Version, b: nat): (blocks: Blocks)
    requires NumBlocks(version) > 0 && |data| == Capacity(version) && b <= NumBlocks(version)
    ensures |blocks| == b
  {
    seq(b, c requires 0 <= c < b => BlockData(data, version, c))
  }

  function EccBlocks(data: seq<bv8>, version: Version, b: nat): (blocks: Blocks)
    requires NumBlocks(version) > 0 && EccLen(version) > 0 && |data| == Capacity(version) && b <= NumBlocks(version)
    ensures |blocks| == b
  {
    seq(b, c requires 0 <= c < b => BlockEcc(data, version, c))
  }

  /** All codewords in the order they are placed: data columns, then error-correction columns. */
  function Codewords(data: seq<bv8>, version: Version): seq<bv8>
    requires |data| == Capacity(version)
  {
    TablesAreConsistent(version);
    Interleave(DataBlocks(data, version, NumBlocks(version)), ShortData(version) + 1)
    + Interleave(EccBlocks(data, version, NumBlocks(version)), EccLen(version))
  }

  /** Cuts the data into blocks and computes the error correction of each. */
  method SplitBlocks(data: seq<bv8>, version: Version) returns (dataBlocks: Blocks, eccBlocks: Blocks)
    requires |data| == Capacity(version) && NumBlocks(version) > 0 && EccLen(version) > 0
    ensures dataBlocks == DataBlocks(data, version, NumBlocks(version))
    ensures eccBlocks == EccBlocks(data, version, NumBlocks(version))
  {
    TablesAreConsistent(version);
    hide Capacity, ShortData, NumShort, NumBlocks, EccLen, Remainder, Generator, BlockEcc, BlockData;
    var count, eccLen, short := NumBlocks(version), EccLen(version), ShortData(version);
    var divisor := Divisor(eccLen);
    dataBlocks, eccBlocks := [], [];
    var offset := 0;
    for b := 0 to count
      invariant offset == Offset(version, b)
      invariant dataBlocks == DataBlocks(data, version, b)
      invariant eccBlocks == EccBlocks(data, version, b)
    {
      OffsetsTile(version, b);
      var length := short + (if b < NumShort(version) then 0 else 1);
      var block := data[offset..offset + length];
      BlockIs(data, version, b, block, divisor);
      var ecc := ComputeRemainder(block, divisor);
      dataBlocks := dataBlocks + [block];
      eccBlocks := eccBlocks + [ecc];
      offset := offset + length;
    }
  }

  method ComputeCodewords(data: seq<bv8>, version: Version) returns (words: seq<bv8>)
    requires |data| == Capacity(version)
    ensures words == Codewords(data, version)
  {
    TablesAreConsistent(version);
    hide Capacity, ShortData, NumShort, NumBlocks, EccLen, DataBlocks, EccBlocks, Column, Interleave;
    var count, eccLen, short := NumBlocks(version), EccLen(version), ShortData(version);
    var dataBlocks, eccBlocks := SplitBlocks(data, version);
    words := [];
    NoColumns(dataBlocks);
    NoColumns(eccBlocks);
    for i := 0 to short + 1
      invariant words == Interleave(dataBlocks, i)
    {
      ghost var before := words;
      NextColumn(dataBlocks, i);
      for b := 0 to count
        invariant words == before + Column(dataBlocks, i, b)
      {
        NextEntry(dataBlocks, i, b);
        words := words + (if i < |dataBlocks[b]| then dataBlocks[b][i..i + 1] else []);
      }
    }
    ghost var dataPart := words;
    for i := 0 to eccLen
      invariant words == dataPart + Interleave(eccBlocks, i)
    {
      ghost var before := words;
      NextColumn(eccBlocks, i);
      for b := 0 to count
        invariant words == before + Column(eccBlocks, i, b)
      {
        EccBlockLength(data, version, b);
        NextEntry(eccBlocks, i, b);
        words := words + [eccBlocks[b][i]];
      }
    }
  }

  lemma {:induction false} NoColumns(blocks: Blocks)
    ensures Interleave(blocks, 0) == []
  {}

  lemma {:induction false} NextColumn(blocks: Blocks, i: nat)
    ensures Interleave(blocks, i + 1) == Interleave(blocks, i) + Column(blocks, i, |blocks|)
    ensures Column(blocks, i, 0) == []
  {}

  lemma {:induction false} NextEntry(blocks: Blocks, i: nat, b: nat)
    requires b < |blocks|
    ensures Column(blocks, i, b + 1) == Column(blocks, i, b) + if i < |blocks[b]| then blocks[b][i..i + 1] else []
    ensures i < |blocks[b]| ==> blocks[b][i..i + 1] == [blocks[b][i]]
  {}

  lemma {:induction false} BlockIs(data: seq<bv8>, version: Version, b: nat, block: seq<bv8>, divisor: seq<bv8>)
    requires NumBlocks(version) > 0 && EccLen(version) > 0 && |data| == Capacity(version) && b < NumBlocks(version)
    requires 0 <= Offset(version, b) <= Offset(version, b) + DataLen(version, b) <= |data|
    requires block == data[Offset(version, b)..Offset(version, b) + DataLen(version, b)]
    requires divisor == Generator(EccLen(version))[1..]
    ensures block == BlockData(data, version, b) && Remainder(block, divisor) == BlockEcc(data, version, b)
  {
    hide Remainder, Generator;
  }

  lemma {:induction false} EccBlockLength(data: seq<bv8>, version: Version, b: nat)
    requires NumBlocks(version) > 0 && EccLen(version) > 0 && |data| == Capacity(version) && b < NumBlocks(version)
    ensures |EccBlocks(data, version, NumBlocks(version))[b]| == EccLen(version)
  {}

  // ---------- reading the codewords back ----------

  /** The position of data byte i of block b. */
  function DataSlot(version: Version, b: nat, i: nat): int
    requires NumBlocks(version) > 0
  {
    if i < ShortData(version) then i * NumBlocks(version) + b
    else ShortData(version) * NumBlocks(version) + (b - NumShort(version))
  }

  /** The position of error-correction byte i of block b. */
  function EccSlot(version: Version, b: nat, i: nat): int {
    Capacity(version) + (i * NumBlocks(version) + b)
  }

  lemma {:induction false} DataBlockLengths(data: seq<bv8>, version: Version)
    requires NumBlocks(version) > 0 && |data| == Capacity(version)
    ensures var blocks := DataBlocks(data, version, NumBlocks(version));
            forall c :: 0 <= c < |blocks| ==> |blocks[c]| == DataLen(version, c)
  {
    hide BlockData, DataLen;
  }

  /** Blocks of length s, then blocks of length s + 1: s full columns and one shorter column. */
  lemma {:induction false} TwoLengths(blocks: Blocks, s: nat, short: nat, b: nat, i: nat)
    requires short <= |blocks| && b < |blocks| && i < |blocks[b]|
    requires forall c :: 0 <= c < |blocks| ==> |blocks[c]| == s + (if c < short then 0 else 1)
    ensures var part := Interleave(blocks, s + 1);
            var slot := if i < s then i * |blocks| + b else s * |blocks| + (b - short);
            && |part| == s * |blocks| + (|blocks| - short)
            && 0 <= slot < |part|
            && part[slot] == blocks[b][i]
  {
    hide Interleave, Column;
    NextColumn(blocks, s);
    InterleaveLength(blocks, s);
    ColumnAt(blocks, s, |blocks|, short);
    if i < s {
      InterleaveAt(blocks, s, i, b);
    }
  }

  /** The data part of the codewords, and what stands in each of its slots. */
  lemma {:induction false} DataSlotHolds(data: seq<bv8>, version: Version, b: nat, i: nat)
    requires NumBlocks(version) > 0 && |data| == Capacity(version)
    requires b < NumBlocks(version) && i < DataLen(version, b)
    ensures var part := Interleave(DataBlocks(data, version, NumBlocks(version)), ShortData(version) + 1);
            && |part| == Capacity(version)
            && 0 <= DataSlot(version, b, i) < Capacity(version)
            && part[DataSlot(version, b, i)] == BlockData(data, version, b)[i]
  {
    TablesAreConsistent(version);
    DataBlockLengths(data, version);
    hide Capacity, ShortData, NumShort, BlockData, NumBlocks, Interleave, Column;
    var n, s := NumBlocks(version), ShortData(version);
    MulComm(n, s);
    TwoLengths(DataBlocks(data, version, n), s, NumShort(version), b, i);
  }

  lemma {:induction false} MulComm(a: int, b: int)
    ensures a * b == b * a
  {}

  lemma {:induction false} EccSlotHolds(data: seq<bv8>, version: Version, b: nat, i: nat)
    requires NumBlocks(version) > 0 && EccLen(version) > 0 && |data| == Capacity(version)
    requires b < NumBlocks(version) && i < EccLen(version)
    ensures var part := Interleave(EccBlocks(data, version, NumBlocks(version)), EccLen(version));
            && |part| == EccLen(version) * NumBlocks(version)
            && 0 <= i * NumBlocks(version) + b < |part|
            && part[i * NumBlocks(version) + b] == BlockEcc(data, version, b)[i]
  {
    hide Capacity, NumBlocks, BlockEcc, EccLen;
    var blocks := EccBlocks(data, version, NumBlocks(version));
    InterleaveLength(blocks, EccLen(version));
    InterleaveAt(blocks, EccLen(version), i, b);
  }

  lemma {:induction false} CodewordsLength(data: seq<bv8>, version: Version)
    requires |data| == Capacity(version)
    ensures |Codewords(data, version)| == RawCodewords(version)
  {
    TablesAreConsistent(version);
    DataSlotHolds(data, version, 0, 0);
    EccSlotHolds(data, version, 0, 0);
    hide DataBlocks, EccBlocks, RawCodewords, Interleave;
  }

  /** Data byte i of block b among received codewords. */
  function ReceivedData(words: seq<bv8>, version: Version, b: nat): (block: seq<bv8>)
    requires NumBlocks(version) > 0 && DataLen(version, b) >= 0
    ensures |block| == DataLen(version, b)
  {
    seq(DataLen(version, b), i requires 0 <= i < DataLen(version, b) => Coef(words, DataSlot(version, b, i)))
  }

  function ReceivedEcc(words: seq<bv8>, version: Version, b: nat): (ecc: seq<bv8>)
    ensures |ecc| == EccLen(version)
  {
    seq(EccLen(version), i requires 0 <= i < EccLen(version) => Coef(words, EccSlot(version, b, i)))
  }

  /** The data of the first b blocks, put back in order. */
  function Deinterleave(words: seq<bv8>, version: Version, b: nat): seq<bv8>
    requires NumBlocks(version) > 0 && forall c: nat :: c < b ==> DataLen(version, c) >= 0
  {
    if b == 0 then [] else Deinterleave(words, version, b - 1) + ReceivedData(words, version, b - 1)
  }

  lemma {:induction false} DataWordAt(data: seq<bv8>, version: Version, b: nat, i: nat)
    requires NumBlocks(version) > 0 && |data| == Capacity(version)
    requires b < NumBlocks(version) && i < DataLen(version, b)
    ensures Coef(Codewords(data, version), DataSlot(version, b, i)) == BlockData(data, version, b)[i]
  {
    TablesAreConsistent(version);
    hide DataBlocks, EccBlocks, Interleave, DataSlot, DataLen, Capacity, BlockData;
    DataSlotHolds(data, version, b, i);
  }

  lemma {:induction false} EccWordAt(data: seq<bv8>, version: Version, b: nat, i: nat)
    requires EccLen(version) > 0 && NumBlocks(version) > 0 && |data| == Capacity(version)
    requires b < NumBlocks(version) && i < EccLen(version)
    ensures Coef(Codewords(data, version), EccSlot(version, b, i)) == BlockEcc(data, version, b)[i]
  {
    TablesAreConsistent(version);
    hide DataBlocks, EccBlocks, Interleave, DataLen, Capacity, BlockEcc, BlockData, DataSlot, EccLen, NumBlocks,
        ShortData;
    DataLengthsPositive(version);
    DataSlotHolds(data, version, 0, 0);
    EccSlotHolds(data, version, b, i);
  }

  lemma {:induction false} ReceivedDataIs(data: seq<bv8>, version: Version, b: nat)
    requires NumBlocks(version) > 0 && |data| == Capacity(version) && b < NumBlocks(version) && DataLen(version, b) >= 0
    ensures ReceivedData(Codewords(data, version), version, b) == BlockData(data, version, b)
  {
    hide Codewords, DataSlot, DataLen, Capacity, BlockData;
    forall i | 0 <= i < DataLen(version, b)
      ensures Coef(Codewords(data, version), DataSlot(version, b, i)) == BlockData(data, version, b)[i]
    {
      DataWordAt(data, version, b, i);
    }
  }

  lemma {:induction false} ReceivedEccIs(data: seq<bv8>, version: Version, b: nat)
    requires EccLen(version) > 0 && NumBlocks(version) > 0 && |data| == Capacity(version) && b < NumBlocks(version)
    ensures ReceivedEcc(Codewords(data, version), version, b) == BlockEcc(data, version, b)
  {
    hide Codewords, EccSlot, EccLen, Capacity, BlockEcc;
    forall i | 0 <= i < EccLen(version)
      ensures Coef(Codewords(data, version), EccSlot(version, b, i)) == BlockEcc(data, version, b)[i]
    {
      EccWordAt(data, version, b, i);
    }
  }

  lemma {:induction false} DataLengthsPositive(version: Version)
    ensures NumBlocks(version) > 0
    ensures forall c: nat :: DataLen(version, c) > 0
  {
    TablesAreConsistent(version);
  }

  lemma {:induction false} BlockDataIs(data: seq<bv8>, version: Version, b: nat)
    requires NumBlocks(version) > 0 && |data| == Capacity(version) && b < NumBlocks(version)
    ensures 0 <= Offset(version, b) <= Offset(version, b + 1) <= |data|
    ensures BlockData(data, version, b) == data[Offset(version, b)..Offset(version, b + 1)]
  {
    OffsetsTile(version, b);
    hide Capacity, Offset, DataLen;
  }

  lemma {:induction false} DeinterleaveStep(words: seq<bv8>, version: Version, b: nat)
    requires NumBlocks(version) > 0 && forall c: nat :: DataLen(version, c) > 0
    ensures Deinterleave(words, version, 0) == []
    ensures Deinterleave(words, version, b + 1) == Deinterleave(words, version, b) + ReceivedData(words, version, b)
  {
    hide ReceivedData, DataLen;
  }

  lemma {:induction false} DeinterleavePrefix(data: seq<bv8>, version: Version, b: nat)
    requires NumBlocks(version) > 0 && |data| == Capacity(version) && b <= NumBlocks(version)
    requires forall c: nat :: DataLen(version, c) > 0
    ensures 0 <= Offset(version, b) <= |data|
    ensures Deinterleave(Codewords(data, version), version, b) == data[..Offset(version, b)]
  {
    hide *;
    DeinterleaveStep(Codewords(data, version), version, if b == 0 then 0 else b - 1);
    if b == 0 {
      OffsetsTile(version, 0);
    } else {
      DeinterleavePrefix(data, version, b - 1);
      ReceivedDataIs(data, version, b - 1);
      BlockDataIs(data, version, b - 1);
    }
  }

  /** De-interleaving the codewords returns the data codewords. */
  lemma {:induction false} DeinterleaveRoundTrip(data: seq<bv8>, version: Version)
    requires |data| == Capacity(version)
    ensures NumBlocks(version) > 0 && forall c: nat :: DataLen(version, c) > 0
    ensures Deinterleave(Codewords(data, version), version, NumBlocks(version)) == data
  {
    DataLengthsPositive(version);
    DeinterleavePrefix(data, version, NumBlocks(version));
    OffsetsTile(version, 0);
    hide Codewords, Deinterleave;
  }

  /** Every block a receiver collects from an undamaged symbol is a word of the error-correction code. */
  lemma {:induction false} ReceivedBlocksAreCodewords(data: seq<bv8>, version: Version, b: nat)
    requires EccLen(version) > 0 && NumBlocks(version) > 0 && DataLen(version, b) >= 0
    requires |data| == Capacity(version) && b < NumBlocks(version)
    ensures var words := Codewords(data, version);
            ReceivedData(words, version, b) + ReceivedEcc(words, version, b)
            == Distance.Block(BlockData(data, version, b), EccLen(version))
    ensures DataLen(version, b) + EccLen(version) <= 255
  {
    TablesAreConsistent(version);
    ReceivedDataIs(data, version, b);
    ReceivedEccIs(data, version, b);
    hide Codewords, ReceivedData, ReceivedEcc, BlockData, Remainder, Generator;
  }

  /** The number of damaged bytes of block b: what was sent for data against what was received. */
  function Damage(data: seq<bv8>, received: seq<bv8>, version: Version, b: nat): nat
    requires EccLen(version) > 0 && NumBlocks(version) > 0 && DataLen(version, b) >= 0
    requires |data| == Capacity(version) && b < NumBlocks(version)
  {
    Distance.Differences(Distance.Block(BlockData(data, version, b), EccLen(version)),
                         ReceivedData(received, version, b) + ReceivedEcc(received, version, b))
  }

  lemma {:induction false} BlockIsDetermined(data: seq<bv8>, other: seq<bv8>, received: seq<bv8>, version: Version,
      b: nat)
    requires EccLen(version) > 0 && NumBlocks(version) > 0 && DataLen(version, b) >= 0
    requires |data| == Capacity(version) == |other| && b < NumBlocks(version)
    requires 2 * Damage(data, received, version, b) <= EccLen(version)
    requires 2 * Damage(other, received, version, b) <= EccLen(version)
    ensures BlockData(data, version, b) == BlockData(other, version, b)
  {
    ReceivedBlocksAreCodewords(data, version, b);
    hide BlockData, ReceivedData, ReceivedEcc, Distance.Block, Distance.Differences, DataLen, EccLen, NumBlocks,
        Capacity, Codewords;
    Distance.DamageIsCorrectable(BlockData(data, version, b), BlockData(other, version, b),
                                 ReceivedData(received, version, b) + ReceivedEcc(received, version, b),
                                     EccLen(version));
  }

  lemma {:induction false} PrefixIsDetermined(data: seq<bv8>, other: seq<bv8>, version: Version, b: nat)
    requires NumBlocks(version) > 0 && |data| == Capacity(version) == |other| && b <= NumBlocks(version)
    requires forall c: nat :: c < b ==> BlockData(data, version, c) == BlockData(other, version, c)
    ensures 0 <= Offset(version, b) <= |data| && data[..Offset(version, b)] == other[..Offset(version, b)]
  {
    hide *;
    if b == 0 {
      OffsetsTile(version, 0);
    } else {
      PrefixIsDetermined(data, other, version, b - 1);
      BlockDataIs(data, version, b - 1);
      BlockDataIs(other, version, b - 1);
      var o, o' := Offset(version, b - 1), Offset(version, b);
      assert BlockData(data, version, b - 1) == BlockData(other, version, b - 1);
      assert data[..o'] == data[..o] + data[o..o'] && other[..o'] == other[..o] + other[o..o'];
    }
  }

  /** Whatever was received, at most one set of data codewords is within half the error-correction bytes in every
      block. */
  lemma {:induction false} DamagedCodewordsAreDetermined(data: seq<bv8>, other: seq<bv8>, received: seq<bv8>,
      version: Version)
    requires NumBlocks(version) > 0 && EccLen(version) > 0 && forall b: nat :: DataLen(version, b) >= 0
    requires |data| == Capacity(version) == |other|
    requires forall b: nat :: b < NumBlocks(version) ==>
               2 * Damage(data, received, version, b) <= EccLen(version)
                   && 2 * Damage(other, received, version, b) <= EccLen(version)
    ensures data == other
  {
    hide *;
    forall b: nat | b < NumBlocks(version) ensures BlockData(data, version, b) == BlockData(other, version, b) {
      BlockIsDetermined(data, other, received, version, b);
    }
    PrefixIsDetermined(data, other, version, NumBlocks(version));
    OffsetsTile(version, 0);
  }
}
