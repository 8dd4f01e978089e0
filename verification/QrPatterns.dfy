/** What a finished symbol shows in its function patterns, whatever the order of drawing. */
module QrPatterns {
  import opened QrTables
  import opened QrWalk
  import opened QrLayout
  import opened QrStandard
  import opened QrSymbol
  import opened QrScan
  import opened Wrappers

  /** A coordinate an alignment pattern may have. */
  predicate IsPosition(size: nat, p: int) {
    p % 2 == 0 && (p == 6 || p == size - 7 || 18 <= p <= size - 19)
  }

  lemma {:induction false} PositionValues(version: Version, i: nat)
    requires i < AlignmentCount(version)
    ensures IsPosition(Size(version), AlignmentPositions(version)[i])
  {
    PositionsSpread(version);
    var last := AlignmentCount(version) - 1;
    hide AlignmentPositions, AlignmentCount;
    if 0 < i < last {
      PositionsApart(version, 0, i);
      PositionsApart(version, i, last);
    }
  }

  lemma {:induction false} CentreKeepsOut(size: nat, x: int, y: int, c: Cell)
    requires size >= 25 && IsPosition(size, x) && IsPosition(size, y)
    requires !Skipped(size, x, y) && Near(c, x, y, 2)
    ensures !InFinder(size, c) && !InFormat(size, c) && (size >= 45 ==> !InVersion(size, c))
  {
    CentreIsFar(size, x, y);
    hide IsPosition, Skipped;
  }

  /** A coordinate at the edge leaves the other one in the middle. */
  lemma {:induction false} CentreIsFar(size: nat, x: int, y: int)
    requires size >= 25 && IsPosition(size, x) && IsPosition(size, y) && !Skipped(size, x, y)
    ensures 6 <= x <= size - 7 && 6 <= y <= size - 7
    ensures x < 18 ==> x == 6 && 18 <= y <= size - 19
    ensures y < 18 ==> y == 6 && 18 <= x <= size - 19
    ensures x > size - 19 ==> x == size - 7 && y >= 18
    ensures y > size - 19 ==> y == size - 7 && x >= 18
  {}

  lemma {:induction false} RingOnTiming(size: nat, x: int, y: int, c: Cell)
    requires size >= 25 && IsPosition(size, x) && IsPosition(size, y) && Near(c, x, y, 2)
    ensures c.y == 6 ==> (AlignmentRing(c.x - x, c.y - y) <==> c.x % 2 == 0)
    ensures c.x == 6 ==> (AlignmentRing(c.x - x, c.y - y) <==> c.y % 2 == 0)
  {}

  lemma {:induction false} CoverKeepsOut(version: Version, a: nat, b: nat, c: Cell)
    requires a < AlignmentCount(version) && b < AlignmentCount(version) && Covers(version, a, b, c)
    ensures var x, y, size := AlignmentPositions(version)[b], AlignmentPositions(version)[a], Size(version);
            && !InFinder(size, c) && !InFormat(size, c) && (version >= 7 ==> !InVersion(size, c))
            && (c.y == 6 ==> (AlignmentRing(c.x - x, c.y - y) <==> c.x % 2 == 0))
            && (c.x == 6 ==> (AlignmentRing(c.x - x, c.y - y) <==> c.y % 2 == 0))
  {
    PositionValues(version, a);
    PositionValues(version, b);
    CentreKeepsOut(Size(version), AlignmentPositions(version)[b], AlignmentPositions(version)[a], c);
    RingOnTiming(Size(version), AlignmentPositions(version)[b], AlignmentPositions(version)[a], c);
    hide AlignmentPositions, Near, Skipped, AlignmentRing, InFinder, InFormat, InVersion, IsPosition;
  }

  /** No alignment pattern reaches a finder pattern, its separator or the format and version information. */
  lemma {:induction false} AlignmentsKeepOut(version: Version, c: Cell)
    requires InAlignment(version, c)
    ensures !InFinder(Size(version), c) && !InFormat(Size(version), c)
    ensures version >= 7 ==> !InVersion(Size(version), c)
  {
    var a, b :| 0 <= a < AlignmentCount(version) && 0 <= b < AlignmentCount(version) && Covers(version, a, b, c);
    CoverKeepsOut(version, a, b, c);
    hide AlignmentPositions, AlignmentCount, Covers, InFinder, InFormat, InVersion;
  }

  /** The three finder patterns and their separators are complete. */
  lemma {:induction false} FindersShow(version: Version, c: Cell)
    requires Inside(c, Size(version)) && InFinder(Size(version), c)
    ensures Dark(version, 4, c) == FinderDark(Size(version), c)
  {
    if InAlignment(version, c) {
      AlignmentsKeepOut(version, c);
    }
    hide InAlignment, AlignmentDark, VersionDark, FormatDark, FinderDark;
  }

  /** A covered cell shows the pattern that covers it. */
  lemma {:induction false} CoveredShows(version: Version, a: nat, b: nat, c: Cell)
    requires a < AlignmentCount(version) && b < AlignmentCount(version) && Covers(version, a, b, c)
    ensures AlignmentDark(version, c) <==>
        AlignmentRing(c.x - AlignmentPositions(version)[b], c.y - AlignmentPositions(version)[a])
  {
    hide AlignmentPositions, AlignmentCount, Covers, AlignmentRing;
    forall a', b' | 0 <= a' < AlignmentCount(version) && 0 <= b' < AlignmentCount(version) && Covers(version, a', b', c)
      ensures a' == a && b' == b
    {
      AlignmentsDisjoint(version, a', b', a, b, c);
    }
  }

  /** Every alignment pattern is complete. */
  lemma {:induction false} AlignmentsShow(version: Version, a: nat, b: nat, c: Cell)
    requires a < AlignmentCount(version) && b < AlignmentCount(version) && Covers(version, a, b, c)
    ensures Dark(version, 4, c) <==>
        AlignmentRing(c.x - AlignmentPositions(version)[b], c.y - AlignmentPositions(version)[a])
  {
    CoveredShows(version, a, b, c);
    CoverKeepsOut(version, a, b, c);
    assert InAlignment(version, c);
    hide AlignmentPositions, AlignmentCount, Covers, AlignmentRing, AlignmentDark, InFinder, InFormat, InVersion,
        InAlignment;
  }

  /** The timing lines alternate between the finder patterns, also where alignment patterns cross them. */
  lemma {:induction false} TimingShows(version: Version, c: Cell)
    requires Inside(c, Size(version)) && !InFinder(Size(version), c)
    ensures c.y == 6 ==> (Dark(version, 4, c) <==> c.x % 2 == 0)
    ensures c.x == 6 ==> (Dark(version, 4, c) <==> c.y % 2 == 0)
  {
    if InAlignment(version, c) {
      var a, b :| 0 <= a < AlignmentCount(version) && 0 <= b < AlignmentCount(version) && Covers(version, a, b, c);
      CoverKeepsOut(version, a, b, c);
      AlignmentsShow(version, a, b, c);
      hide *;
    } else if IsTiming(c) {
      TimingIsPlain(Size(version), c);
      hide InAlignment, InFinder, AlignmentDark, VersionDark, FormatDark, InFormat, InVersion;
    }
  }

  lemma {:induction false} TimingIsPlain(size: nat, c: Cell)
    requires size >= 21 && Inside(c, size) && !InFinder(size, c) && IsTiming(c)
    ensures !InFormat(size, c) && !InVersion(size, c)
  {}

  // ---------- the patterns as the standard draws them ----------

  /** The upper left cell of each finder pattern. */
  predicate IsFinderCorner(size: nat, x: int, y: int) {
    (x == 0 && (y == 0 || y == size - 7)) || (x == size - 7 && y == 0)
  }

  lemma {:induction false} FinderBitmap(dx: nat, dy: nat)
    requires dx < 7 && dy < 7
    ensures |FINDER| == 7 && |FINDER[dy]| == 7
    ensures FinderRing(dx - 3, dy - 3) <==> FINDER[dy][dx] == '#'
  {
    assert dx in {0, 1, 2, 3, 4, 5, 6} && dy in {0, 1, 2, 3, 4, 5, 6};
  }

  lemma {:induction false} AlignmentBitmap(dx: nat, dy: nat)
    requires dx < 5 && dy < 5
    ensures |ALIGNMENT| == 5 && |ALIGNMENT[dy]| == 5
    ensures AlignmentRing(dx - 2, dy - 2) <==> ALIGNMENT[dy][dx] == '#'
  {
    assert dx in {0, 1, 2, 3, 4} && dy in {0, 1, 2, 3, 4};
  }

  /** The three corners show the finder pattern, module by module. */
  lemma {:induction false} FindersAreDrawn(version: Version, x: int, y: int, dx: nat, dy: nat)
    requires IsFinderCorner(Size(version), x, y) && dx < 7 && dy < 7
    ensures |FINDER| == 7 && |FINDER[dy]| == 7
    ensures Dark(version, 4, Cell(x + dx, y + dy)) <==> FINDER[dy][dx] == '#'
  {
    FinderBitmap(dx, dy);
    FindersShow(version, Cell(x + dx, y + dy));
    hide Dark, FinderRing, FINDER;
  }

  /** The modules around a finder pattern are light. */
  lemma {:induction false} SeparatorsAreLight(version: Version, x: int, y: int, c: Cell)
    requires IsFinderCorner(Size(version), x, y) && Inside(c, Size(version))
    requires x - 1 <= c.x <= x + 7 && y - 1 <= c.y <= y + 7
    requires !(x <= c.x < x + 7 && y <= c.y < y + 7)
    ensures !Dark(version, 4, c)
  {
    FindersShow(version, c);
    hide Dark;
  }

  /** Around every centre of the standard's table outside the corners stands an alignment pattern. */
  lemma {:induction false} AlignmentsAreDrawn(version: Version, i: nat, j: nat, dx: nat, dy: nat)
    requires i < |CENTRES[version]| && j < |CENTRES[version]| && dx < 5 && dy < 5
    requires !InCorner(Size(version), Cell(CENTRES[version][i], CENTRES[version][j]))
    ensures |ALIGNMENT| == 5 && |ALIGNMENT[dy]| == 5
    ensures Dark(version, 4, Cell(CENTRES[version][i] - 2 + dx, CENTRES[version][j] - 2 + dy))
            <==> ALIGNMENT[dy][dx] == '#'
  {
    CentresAre(version);
    AlignmentBitmap(dx, dy);
    var c := Cell(CENTRES[version][i] - 2 + dx, CENTRES[version][j] - 2 + dy);
    hide CENTRES, AlignmentPositions, Dark, AlignmentRing, ALIGNMENT, InCorner, Covers;
    SquareAt(version, j, i, c);
    AlignmentsShow(version, j, i, c);
  }

  lemma {:induction false} VersionCells(size: nat, i: nat)
    requires size >= 45 && i < 18
    ensures var a, b := size - 11 + i % 3, i / 3;
            && InVersion(size, Cell(a, b)) && VersionIndex(size, Cell(a, b)) == i
            && InVersion(size, Cell(b, a)) && VersionIndex(size, Cell(b, a)) == i
  {}

  lemma {:induction false} VersionShows(version: Version, c: Cell, i: nat)
    requires 7 <= version && i < 18 && InVersion(Size(version), c) && VersionIndex(Size(version), c) == i
    ensures |VERSION_WORDS| == 14 && Dark(version, 4, c) == WordBit(VERSION_WORDS[version - 7], i)
  {
    VersionWords(version);
    hide VERSION_WORDS, VersionWord, WordBit, InFinder, InAlignment, InFormat, AlignmentDark, FinderDark, FormatDark,
        InVersion, VersionIndex;
  }

  /** From version 7 on both blocks of version information show the word of the standard's table: bit i stands in row
      i / 3 of the upper right block, and mirrored in the lower left one. */
  lemma {:induction false} VersionIsDrawn(version: Version, i: nat)
    requires 7 <= version && i < 18
    ensures |VERSION_WORDS| == 14
    ensures Dark(version, 4, Cell(Size(version) - 11 + i % 3, i / 3)) == WordBit(VERSION_WORDS[version - 7], i)
    ensures Dark(version, 4, Cell(i / 3, Size(version) - 11 + i % 3)) == WordBit(VERSION_WORDS[version - 7], i)
  {
    LargeSize(version);
    hide *;
    VersionCells(Size(version), i);
    VersionShows(version, Cell(Size(version) - 11 + i % 3, i / 3), i);
    VersionShows(version, Cell(i / 3, Size(version) - 11 + i % 3), i);
  }

  lemma {:induction false} LargeSize(version: Version)
    requires 7 <= version
    ensures Size(version) >= 45
  {}

  function Four(value: bv32): bv32 { VersionStep(VersionStep(VersionStep(VersionStep(value)))) }

  function Twelve(value: bv32): bv32 { Four(Four(Four(value))) }

  lemma {:induction false} FourMore(number: bv32, k: nat)
    ensures VersionRemainder(number, k + 4) == Four(VersionRemainder(number, k))
  {
    VersionRemainderNext(number, k);
    VersionRemainderNext(number, k + 1);
    VersionRemainderNext(number, k + 2);
    VersionRemainderNext(number, k + 3);
    hide VersionRemainder, VersionStep;
  }

  lemma {:induction false} TwelveIs(number: bv32)
    ensures VersionRemainder(number, 12) == Twelve(number)
  {
    hide Four, VersionRemainder;
    VersionRemainderStart(number);
    FourMore(number, 0);
    FourMore(number, 4);
    FourMore(number, 8);
  }

  lemma {:induction false} SmallWords()
    ensures Join(7, Twelve(7)) == 0x07C94 && Join(8, Twelve(8)) == 0x085BC
    ensures Join(9, Twelve(9)) == 0x09A99 && Join(10, Twelve(10)) == 0x0A4D3
    ensures Join(11, Twelve(11)) == 0x0BBF6 && Join(12, Twelve(12)) == 0x0C762
    ensures Join(13, Twelve(13)) == 0x0D847
  {}

  lemma {:induction false} LargeWords()
    ensures Join(14, Twelve(14)) == 0x0E60D && Join(15, Twelve(15)) == 0x0F928
    ensures Join(16, Twelve(16)) == 0x10B78 && Join(17, Twelve(17)) == 0x1145D
    ensures Join(18, Twelve(18)) == 0x12A17 && Join(19, Twelve(19)) == 0x13532
    ensures Join(20, Twelve(20)) == 0x149A6
  {}

  lemma {:induction false} SmallNumbers()
    ensures Number(7) == 7 && Number(8) == 8 && Number(9) == 9 && Number(10) == 10 && Number(11) == 11
    ensures Number(12) == 12 && Number(13) == 13
  {}

  lemma {:induction false} LargeNumbers()
    ensures Number(14) == 14 && Number(15) == 15 && Number(16) == 16 && Number(17) == 17 && Number(18) == 18
    ensures Number(19) == 19 && Number(20) == 20
  {}

  /** The words the encoder computes are those of the standard's table. */
  lemma {:induction false} VersionWords(version: Version)
    requires 7 <= version
    ensures |VERSION_WORDS| == 14 && VersionWord(version) == VERSION_WORDS[version - 7]
  {
    TwelveIs(Number(version));
    hide VersionRemainder, Twelve, Number, Join;
    if version < 14 {
      SmallNumbers();
      SmallWords();
      assert version in {7, 8, 9, 10, 11, 12, 13};
    } else {
      LargeNumbers();
      LargeWords();
      assert version in {14, 15, 16, 17, 18, 19, 20};
    }
  }

  // ---------- the codes of the format and version information ----------

  /** The multiple of a generator polynomial over GF(2) given by the coefficients of the other factor. */
  function Multiple(generator: bv32, factor: seq<bool>): bv32 {
    if |factor| == 0 then 0
    else (Multiple(generator, factor[..|factor| - 1]) << 1) ^ (if factor[|factor| - 1] then generator else 0)
  }

  /** A multiple once the factor has one more bit. */
  function Longer(multiple: bv32, generator: bv32, bit: bool): bv32 {
    (multiple << 1) ^ (if bit then generator else 0)
  }

  lemma {:induction false} MultipleAppend(generator: bv32, factor: seq<bool>, bit: bool)
    ensures Multiple(generator, factor + [bit]) == Longer(Multiple(generator, factor), generator, bit)
  {
    assert (factor + [bit])[..|factor|] == factor;
  }

  lemma {:induction false} EmptyMultiple(generator: bv32)
    ensures Multiple(generator, []) == 0
  {}

  /** value is a remainder of shifted: they differ by the given multiple. */
  predicate Remains(shifted: bv32, multiple: bv32, value: bv32) {
    value < 0x1000 && shifted == multiple ^ value
  }

  predicate TopBit(value: bv32) { value & 0x800 != 0 }

  /** One division step shifts both and takes the generator away when the top bit is set. */
  lemma {:induction false} DivisionStep(shifted: bv32, multiple: bv32, value: bv32, next: bv32)
    requires Remains(shifted, multiple, value)
    requires next == Longer(multiple, 0x1F25, TopBit(value))
    ensures Remains(Twice(shifted), next, VersionStep(value))
  {
    if value & 0x800 != 0 {
      assert value >> 11 == 1;
    } else {
      assert value >> 11 == 0;
    }
  }

  function Twice(number: bv32): bv32 { number << 1 }

  function ShiftBy(number: bv32, k: nat): bv32 { if k == 0 then number else ShiftBy(number, k - 1) << 1 }

  lemma {:induction false} DivisionStart(number: bv32)
    requires number < 0x1000
    ensures Remains(ShiftBy(number, 0), Multiple(0x1F25, []), VersionRemainder(number, 0))
  {}

  lemma {:induction false} ShiftNext(number: bv32, k: nat)
    ensures ShiftBy(number, k + 1) == Twice(ShiftBy(number, k))
  {}

  /** After k steps the shifted number differs from a multiple of the generator by the remainder. */
  lemma {:induction false} DivisionInvariant(number: bv32, k: nat) returns (factor: seq<bool>)
    requires number < 0x1000
    ensures Remains(ShiftBy(number, k), Multiple(0x1F25, factor), VersionRemainder(number, k))
  {
    hide *;
    if k == 0 {
      factor := [];
      DivisionStart(number);
    } else {
      var shorter := DivisionInvariant(number, k - 1);
      var value := VersionRemainder(number, k - 1);
      factor := shorter + [TopBit(value)];
      MultipleAppend(0x1F25, shorter, TopBit(value));
      DivisionStep(ShiftBy(number, k - 1), Multiple(0x1F25, shorter), value, Multiple(0x1F25, factor));
      ShiftNext(number, k - 1);
      VersionRemainderNext(number, k - 1);
    }
  }

  lemma {:induction false} ShiftTwelve(number: bv32)
    ensures ShiftBy(number, 12) == number << 12
  {
    hide *;
    ShiftNone(number);
    ShiftFour(number, 0);
    ShiftFour(number, 4);
    ShiftFour(number, 8);
  }

  lemma {:induction false} ShiftNone(number: bv32)
    ensures ShiftBy(number, 0) == number
  {}

  lemma {:induction false} TwiceFour(number: bv32)
    ensures Twice(Twice(Twice(Twice(number)))) == number << 4
  {}

  lemma {:induction false} ShiftFour(number: bv32, k: nat)
    ensures ShiftBy(number, k + 4) == ShiftBy(number, k) << 4
  {
    hide *;
    TwiceFour(ShiftBy(number, k));
    ShiftNext(number, k);
    ShiftNext(number, k + 1);
    ShiftNext(number, k + 2);
    ShiftNext(number, k + 3);
  }

  lemma {:induction false} JoinIs(number: bv32, value: bv32, multiple: bv32)
    requires number < 0x40 && Remains(number << 12, multiple, value)
    ensures Join(number, value) == multiple && Join(number, value) >> 12 == number
  {}

  /** The version information is the version number and a multiple of the generator polynomial of its code. */
  lemma {:induction false} VersionInformation(number: bv32) returns (factor: seq<bool>)
    requires number < 0x40
    ensures var word := Join(number, VersionRemainder(number, 12));
            word >> 12 == number && word == Multiple(0x1F25, factor)
  {
    hide *;
    factor := DivisionInvariant(number, 12);
    ShiftTwelve(number);
    JoinIs(number, VersionRemainder(number, 12), Multiple(0x1F25, factor));
  }

  /** The format bits are level L with mask 0 as a multiple of the generator 0x537, masked with 0x5412. */
  lemma {:induction false} FormatInformation()
    ensures (FORMAT_BITS ^ 0x5412) >> 10 == 0x08
    ensures FORMAT_BITS ^ 0x5412 == Multiple(0x537, [true, false, true, false])
  {
    MultipleAppend(0x537, [], true);
    MultipleAppend(0x537, [true], false);
    MultipleAppend(0x537, [true, false], true);
    MultipleAppend(0x537, [true, false, true], false);
    assert [] + [true] == [true] && [true] + [false] == [true, false] && [true, false] + [true] == [true, false, true];
    assert [true, false, true] + [false] == [true, false, true, false];
    EmptyMultiple(0x537);
    hide Multiple;
  }

  // ---------- choosing the version ----------

  /** The smallest version that fits, or none when even version 20 is too small. */
  method ChooseVersion(length: nat) returns (r: Option<Version>)
    ensures r.Some? ==> Fits(length, r.value) && forall v: Version :: v < r.value ==> !Fits(length, v)
    ensures r.None? <==> forall v: Version :: !Fits(length, v)
  {
    for version := 1 to 21
      invariant forall v: Version :: v < version ==> !Fits(length, v)
    {
      if 4 + (if version <= 9 then 8 else 16) + length * 8 <= Capacity(version) * 8 {
        return Some(version);
      }
    }
    return None;
  }

  /** A payload becomes a symbol of the smallest fitting version that reads back as the payload, or is too long. */
  method Encode(data: seq<bv8>) returns (r: Option<(Version, Grid)>)
    ensures r.None? <==> forall v: Version :: !Fits(|data|, v)
    ensures r.Some? ==>
              && IsGrid(r.value.1, Size(r.value.0))
              && Scan(r.value.1) == Decode(r.value.1, r.value.0) == Some(data)
              && forall v: Version :: v < r.value.0 ==> !Fits(|data|, v)
  {
    hide Fits, Scan, Decode;
    var version := ChooseVersion(|data|);
    if version.None? {
      return None;
    }
    var qr := new Qr(version.value, data);
    return Some((version.value, qr.modules));
  }
}
