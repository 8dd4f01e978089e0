/** Sizes and block structure of the QR versions 1 to 20 at error-correction level L. */
module QrTables {
  import opened Arith

  type Version = v: nat | 1 <= v <= 20 witness 1

  const ECC_LEN: seq<nat> := [0, 7, 10, 15, 20, 26, 18, 20, 24, 30, 18, 20, 24, 26, 30, 22, 24, 28, 30, 28, 28]
  const NUM_BLOCKS: seq<nat> := [0, 1, 1, 1, 1, 1, 2, 2, 2, 2, 4, 4, 4, 4, 4, 6, 6, 6, 6, 7, 8]

  function Size(version: Version): nat { version * 4 + 17 }

  /** The modules left for data and error correction once all function patterns are drawn. */
  function RawModules(version: Version): int {
    var all := (16 * version + 128) * version + 64;
    var align := version / 7 + 2;
    var aligned := if version >= 2 then all - ((25 * align - 10) * align - 55) else all;
    aligned - (if version >= 7 then 36 else 0)
  }

  function EccLen(version: Version): nat { ECC_LEN[version] }

  function NumBlocks(version: Version): nat { NUM_BLOCKS[version] }

  function RawCodewords(version: Version): int { RawModules(version) / 8 }

  function Capacity(version: Version): int { RawCodewords(version) - EccLen(version) * NumBlocks(version) }

  function CountBits(version: Version): nat { if version <= 9 then 8 else 16 }

  /** A payload of this many bytes, with mode and count, fits the version. */
  predicate Fits(length: nat, version: Version) {
    4 + CountBits(version) + length * 8 <= Capacity(version) * 8
  }

  /** The data bytes of a short block; the remaining blocks hold one more. */
  function ShortData(version: Version): int
    requires NumBlocks(version) > 0
  {
    RawCodewords(version) / NumBlocks(version) - EccLen(version)
  }

  function NumShort(version: Version): int
    requires NumBlocks(version) > 0
  {
    NumBlocks(version) - RawCodewords(version) % NumBlocks(version)
  }

  lemma {:induction false} RawTable()
    ensures RawModules(1) == 208 && RawModules(2) == 359 && RawModules(3) == 567 && RawModules(4) == 807
        && RawModules(5) == 1079
    ensures RawModules(6) == 1383 && RawModules(7) == 1568 && RawModules(8) == 1936 && RawModules(9) == 2336
        && RawModules(10) == 2768
    ensures RawModules(11) == 3232 && RawModules(12) == 3728 && RawModules(13) == 4256 && RawModules(14) == 4651
        && RawModules(15) == 5243
    ensures RawModules(16) == 5867 && RawModules(17) == 6523 && RawModules(18) == 7211 && RawModules(19) == 7931
        && RawModules(20) == 8683
  {}

  /** The numbers of one version agree with each other. */
  predicate Consistent(version: Version) {
    && NumBlocks(version) > 0 && EccLen(version) > 0
    && 0 < NumShort(version) <= NumBlocks(version) && ShortData(version) > 0
    && Capacity(version) == NumBlocks(version) * ShortData(version) + (NumBlocks(version) - NumShort(version))
    && ShortData(version) + 1 + EccLen(version) <= 255
    && 2 < Capacity(version) < if version <= 9 then 256 else 65536
  }

  /** One row of the tables: each block has its share of the raw codewords, some have one more. */
  lemma {:induction false} Row(version: Version, blocks: nat, ecc: nat, share: nat, rest: nat)
    requires NumBlocks(version) == blocks && EccLen(version) == ecc && RawCodewords(version) == blocks * share + rest
    requires rest < blocks && 0 < ecc < share < 255
    requires 2 < blocks * (share - ecc) + rest < if version <= 9 then 256 else 65536
    ensures Consistent(version)
  {
    hide RawModules, RawCodewords;
    DivUnique(RawCodewords(version), blocks, share, rest);
    assert blocks * (share - ecc) == blocks * share - blocks * ecc;
  }

  /** The tables describe a partition of the raw codewords into blocks the code can protect. */
  lemma {:induction false} TablesAreConsistent(version: Version)
    ensures NumBlocks(version) > 0 && EccLen(version) > 0
    ensures 0 < NumShort(version) <= NumBlocks(version) && ShortData(version) > 0
    ensures Capacity(version) == NumBlocks(version) * ShortData(version) + (NumBlocks(version) - NumShort(version))
    ensures ShortData(version) + 1 + EccLen(version) <= 255
    ensures 2 < Capacity(version) < if version <= 9 then 256 else 65536
  {
    if version <= 10 { SmallTablesAreConsistent(version); } else { LargeTablesAreConsistent(version); }
  }

  lemma {:induction false} SmallTablesAreConsistent(version: Version)
    requires version <= 10
    ensures Consistent(version)
  {
    RawTable();
    hide NumShort, ShortData, Capacity, RawModules, Consistent;
    if version == 1 { Row(version, 1, 7, 26, 0); }
    else if version == 2 { Row(version, 1, 10, 44, 0); }
    else if version == 3 { Row(version, 1, 15, 70, 0); }
    else if version == 4 { Row(version, 1, 20, 100, 0); }
    else if version == 5 { Row(version, 1, 26, 134, 0); }
    else if version == 6 { Row(version, 2, 18, 86, 0); }
    else if version == 7 { Row(version, 2, 20, 98, 0); }
    else if version == 8 { Row(version, 2, 24, 121, 0); }
    else if version == 9 { Row(version, 2, 30, 146, 0); }
    else { Row(version, 4, 18, 86, 2); }
  }

  lemma {:induction false} LargeTablesAreConsistent(version: Version)
    requires version > 10
    ensures Consistent(version)
  {
    RawTable();
    hide NumShort, ShortData, Capacity, RawModules, Consistent;
    if version == 11 { Row(version, 4, 20, 101, 0); }
    else if version == 12 { Row(version, 4, 24, 116, 2); }
    else if version == 13 { Row(version, 4, 26, 133, 0); }
    else if version == 14 { Row(version, 4, 30, 145, 1); }
    else if version == 15 { Row(version, 6, 22, 109, 1); }
    else if version == 16 { Row(version, 6, 24, 122, 1); }
    else if version == 17 { Row(version, 6, 28, 135, 5); }
    else if version == 18 { Row(version, 6, 30, 150, 1); }
    else if version == 19 { Row(version, 7, 28, 141, 4); }
    else { Row(version, 8, 28, 135, 5); }
  }

  lemma {:induction false} CountFits(n: nat, version: Version)
    requires Fits(n, version)
    ensures n < if version <= 9 then 256 else 65536
  {
    TablesAreConsistent(version);
    hide Capacity;
  }
}
