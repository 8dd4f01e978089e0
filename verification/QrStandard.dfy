/** What ISO/IEC 18004:2015 prescribes for versions 1 to 20 at level L, in its own tables and figures. */
module QrStandard {
  import opened Arith
  import opened QrTables
  import opened QrWalk
  import opened QrLayout

  // ---------- tables ----------

  /** The centre coordinates of alignment patterns, by version (annex E). */
  const CENTRES: seq<seq<int>> := [
    [], [], [6, 18], [6, 22], [6, 26], [6, 30], [6, 34], [6, 22, 38], [6, 24, 42], [6, 26, 46], [6, 28, 50],
    [6, 30, 54], [6, 32, 58], [6, 34, 62], [6, 26, 46, 66], [6, 26, 48, 70], [6, 26, 50, 74], [6, 30, 54, 78],
    [6, 30, 56, 82], [6, 30, 58, 86], [6, 34, 62, 90]]

  /** Blocks of one size: how many, their codewords and those of them that are data. */
  datatype Group = Group(count: nat, total: nat, data: nat)

  /** The error-correction blocks by version (table 9); the second group, of longer blocks, may be empty. */
  const BLOCKS: seq<(Group, nat)> := [
    (Group(0, 0, 0), 0), (Group(1, 26, 19), 0), (Group(1, 44, 34), 0), (Group(1, 70, 55), 0), (Group(1, 100, 80), 0),
    (Group(1, 134, 108), 0), (Group(2, 86, 68), 0), (Group(2, 98, 78), 0), (Group(2, 121, 97), 0),
    (Group(2, 146, 116), 0), (Group(2, 86, 68), 2), (Group(4, 101, 81), 0), (Group(2, 116, 92), 2),
    (Group(4, 133, 107), 0), (Group(3, 145, 115), 1), (Group(5, 109, 87), 1), (Group(5, 122, 98), 1),
    (Group(1, 135, 107), 5), (Group(5, 150, 120), 1), (Group(3, 141, 113), 4), (Group(3, 135, 107), 5)]

  /** The bytes a symbol holds, by version (table 7). */
  const BYTES: seq<nat> := [
    0, 17, 32, 53, 78, 106, 134, 154, 192, 230, 271, 321, 367, 425, 458, 520, 586, 644, 718, 792, 858]

  lemma {:induction false} CentresAre(version: Version)
    ensures |CENTRES| == 21 && AlignmentPositions(version) == CENTRES[version]
  {
    if version == 1 {
    } else {
      PositionsExplicit(version);
      hide AlignmentPositions, AlignmentStep;
      if version < 7 {
        FewCentres(version);
      } else {
        StepTable();
        if version < 14 { SomeCentres(version); } else { ManyCentres(version); }
      }
    }
  }

  lemma {:induction false} FewCentres(version: Version)
    requires 1 < version < 7
    ensures CENTRES[version] == [6, version * 4 + 10]
  {}

  lemma {:induction false} SomeCentres(version: Version)
    requires 7 <= version < 14
    ensures CENTRES[version] == [6, version * 4 + 10 - AlignmentStep(version), version * 4 + 10]
  {
    StepTable();
    hide AlignmentStep;
  }

  lemma {:induction false} ManyCentres(version: Version)
    requires 14 <= version
    ensures var last, step := version * 4 + 10, AlignmentStep(version);
            CENTRES[version] == [6, last - 2 * step, last - step, last]
  {
    StepTable();
    hide AlignmentStep;
  }

  predicate Agrees(version: Version) {
    && NumBlocks(version) > 0
    && var (short, longer) := BLOCKS[version];
       && NumShort(version) == short.count && NumBlocks(version) == short.count + longer
       && ShortData(version) == short.data && EccLen(version) == short.total - short.data
       && RawCodewords(version) == short.count * short.total + longer * (short.total + 1)
  }

  lemma {:induction false} RowAgrees(version: Version, short: Group, longer: nat)
    requires |BLOCKS| == 21 && BLOCKS[version] == (short, longer) && short.count > 0 && short.total >= short.data
    requires NumBlocks(version) == short.count + longer && EccLen(version) == short.total - short.data
    requires RawCodewords(version) == (short.count + longer) * short.total + longer
    ensures Agrees(version)
  {
    hide BLOCKS, RawCodewords, NumBlocks, EccLen;
    DivUnique(RawCodewords(version), short.count + longer, short.total, longer);
    assert (short.count + longer) * short.total == short.count * short.total + longer * short.total;
  }

  lemma {:induction false} SmallRow(version: Version)
    requires version <= 10
    ensures Agrees(version)
  {
    RawTable();
    hide RawModules, Agrees, NumShort, ShortData;
    if version == 1 { RowAgrees(1, Group(1, 26, 19), 0); }
    else if version == 2 { RowAgrees(2, Group(1, 44, 34), 0); }
    else if version == 3 { RowAgrees(3, Group(1, 70, 55), 0); }
    else if version == 4 { RowAgrees(4, Group(1, 100, 80), 0); }
    else if version == 5 { RowAgrees(5, Group(1, 134, 108), 0); }
    else if version == 6 { RowAgrees(6, Group(2, 86, 68), 0); }
    else if version == 7 { RowAgrees(7, Group(2, 98, 78), 0); }
    else if version == 8 { RowAgrees(8, Group(2, 121, 97), 0); }
    else if version == 9 { RowAgrees(9, Group(2, 146, 116), 0); }
    else { RowAgrees(10, Group(2, 86, 68), 2); }
  }

  lemma {:induction false} LargeRow(version: Version)
    requires version > 10
    ensures Agrees(version)
  {
    RawTable();
    hide RawModules, Agrees, NumShort, ShortData;
    if version == 11 { RowAgrees(11, Group(4, 101, 81), 0); }
    else if version == 12 { RowAgrees(12, Group(2, 116, 92), 2); }
    else if version == 13 { RowAgrees(13, Group(4, 133, 107), 0); }
    else if version == 14 { RowAgrees(14, Group(3, 145, 115), 1); }
    else if version == 15 { RowAgrees(15, Group(5, 109, 87), 1); }
    else if version == 16 { RowAgrees(16, Group(5, 122, 98), 1); }
    else if version == 17 { RowAgrees(17, Group(1, 135, 107), 5); }
    else if version == 18 { RowAgrees(18, Group(5, 150, 120), 1); }
    else if version == 19 { RowAgrees(19, Group(3, 141, 113), 4); }
    else { RowAgrees(20, Group(3, 135, 107), 5); }
  }

  /** The blocks the encoder forms are those of the standard. */
  lemma {:induction false} BlocksAre(version: Version)
    ensures |BLOCKS| == 21 && Agrees(version)
  {
    hide Agrees;
    if version <= 10 { SmallRow(version); } else { LargeRow(version); }
  }

  lemma {:induction false} FitsSmall(version: Version)
    requires version <= 10
    ensures 8 * BYTES[version] <= Capacity(version) * 8 - 4 - CountBits(version) < 8 * BYTES[version] + 8
  {
    RawTable();
    hide RawModules;
  }

  lemma {:induction false} FitsLarge(version: Version)
    requires version > 10
    ensures 8 * BYTES[version] <= Capacity(version) * 8 - 4 - CountBits(version) < 8 * BYTES[version] + 8
  {
    RawTable();
    hide RawModules;
  }

  /** A payload fits a version if and only if the standard has room for it. */
  lemma {:induction false} FitsByTable(length: nat, version: Version)
    ensures |BYTES| == 21 && (Fits(length, version) <==> length <= BYTES[version])
  {
    hide Capacity, CountBits;
    if version <= 10 { FitsSmall(version); } else { FitsLarge(version); }
  }

  // ---------- patterns ----------

  const FINDER: seq<string> := [
    "#######",
    "#.....#",
    "#.###.#",
    "#.###.#",
    "#.###.#",
    "#.....#",
    "#######"]

  const ALIGNMENT: seq<string> := [
    "#####",
    "#...#",
    "#.#.#",
    "#...#",
    "#####"]

  /** A finder pattern with its separator and the format information next to it fills the corner. */
  predicate InCorner(size: nat, c: Cell) {
    || (c.x <= 8 && c.y <= 8)
    || (c.x <= 8 && c.y >= size - 8)
    || (c.x >= size - 8 && c.y <= 8)
  }

  /** The alignment pattern around (x, y), five cells square, covers the cell. */
  predicate Square(size: nat, x: int, y: int, c: Cell) {
    !InCorner(size, Cell(x, y)) && -2 <= c.x - x <= 2 && -2 <= c.y - y <= 2
  }

  predicate InSquare(version: Version, c: Cell) {
    exists x, y :: x in CENTRES[version] && y in CENTRES[version] && Square(Size(version), x, y, c)
  }

  /** Two blocks of six by three cells beside the finder patterns hold the version information. */
  predicate InVersionBlock(size: nat, c: Cell) {
    (c.y < 6 && size - 11 <= c.x < size - 8) || (c.x < 6 && size - 11 <= c.y < size - 8)
  }

  /** The cells that carry no data. */
  predicate Reserved(version: Version, c: Cell) {
    || c.x == 6 || c.y == 6
    || InCorner(Size(version), c)
    || InSquare(version, c)
    || (version >= 7 && InVersionBlock(Size(version), c))
  }

  // ---------- masks ----------

  /** Which cells each of the eight masks inverts (table 10); rows are counted by i, columns by j. */
  predicate Inverts(mask: nat, i: nat, j: nat) {
    if mask == 0 then (i + j) % 2 == 0
    else if mask == 1 then i % 2 == 0
    else if mask == 2 then j % 3 == 0
    else if mask == 3 then (i + j) % 3 == 0
    else if mask == 4 then (i / 2 + j / 3) % 2 == 0
    else if mask == 5 then i * j % 2 + i * j % 3 == 0
    else if mask == 6 then (i * j % 2 + i * j % 3) % 2 == 0
    else ((i + j) % 2 + i * j % 3) % 2 == 0
  }

  // ---------- format information ----------

  /** Where the fifteen bits of format information stand beside the upper left finder, most significant bit first. */
  const FORMAT_CELLS: seq<Cell> := [
    Cell(0, 8), Cell(1, 8), Cell(2, 8), Cell(3, 8), Cell(4, 8), Cell(5, 8), Cell(7, 8), Cell(8, 8),
    Cell(8, 7), Cell(8, 5), Cell(8, 4), Cell(8, 3), Cell(8, 2), Cell(8, 1), Cell(8, 0)]

  /** And where they stand a second time, upwards from the lower left finder and then along the upper right one. */
  function SecondCells(size: nat): seq<Cell> {
    [Cell(8, size - 1), Cell(8, size - 2), Cell(8, size - 3), Cell(8, size - 4), Cell(8, size - 5), Cell(8, size - 6),
     Cell(8, size - 7), Cell(size - 8, 8), Cell(size - 7, 8), Cell(size - 6, 8), Cell(size - 5, 8), Cell(size - 4, 8),
     Cell(size - 3, 8), Cell(size - 2, 8), Cell(size - 1, 8)]
  }

  /** The format information of level L with mask 0, inverted as below (table C.1). */
  const FORMAT_LOW: string := "###.#####...#.."

  /** The bits the format information is inverted by. */
  const FORMAT_MASK: seq<bool> :=
    [true, false, true, false, true, false, false, false, false, false, true, false, false, true, false]

  /** The version information, from version 7 on (table D.1). */
  const VERSION_WORDS: seq<bv32> := [
    0x07C94, 0x085BC, 0x09A99, 0x0A4D3, 0x0BBF6, 0x0C762, 0x0D847, 0x0E60D, 0x0F928, 0x10B78, 0x1145D, 0x12A17,
    0x13532, 0x149A6]

  // ---------- placement ----------

  /** All columns but one are visited. */
  function StepCount(size: nat): nat
    requires size > 0
  {
    size * (size - 1)
  }

  /** The cell of step k: pairs of columns from the right without column 6, upwards and downwards in turn. */
  function Placed(size: nat, k: nat): Cell
    requires size > 0
  {
    var pair, step := k / (2 * size), k % (2 * size);
    var right := size - 1 - 2 * pair - (if 2 * pair >= size - 7 then 1 else 0);
    Cell(right - step % 2, if pair % 2 == 0 then size - 1 - step / 2 else step / 2)
  }

  // ---------- what this says about the encoder's own terms ----------

  /** The encoder's mask is the one its format information announces. */
  lemma {:induction false} MaskZero(c: Cell)
    requires c.x >= 0 && c.y >= 0
    ensures Masked(c) <==> Inverts(0, c.y, c.x)
  {}

  /** A centre of an alignment pattern is the fourth corner, on a timing line or in the middle. */
  lemma {:induction false} CentreValues(version: Version, i: nat)
    requires i < AlignmentCount(version)
    ensures var p, size := AlignmentPositions(version)[i], Size(version);
            p == 6 || p == size - 7 || 18 <= p <= size - 19
  {
    PositionsSpread(version);
    var last := AlignmentCount(version) - 1;
    hide AlignmentPositions, AlignmentCount;
    if 0 < i < last {
      PositionsApart(version, 0, i);
      PositionsApart(version, i, last);
    }
  }

  lemma {:induction false} CornersAreSkipped(size: nat, x: int, y: int)
    requires size >= 25
    requires x == 6 || x == size - 7 || 18 <= x <= size - 19
    requires y == 6 || y == size - 7 || 18 <= y <= size - 19
    ensures InCorner(size, Cell(x, y)) <==> Skipped(size, x, y)
  {}

  lemma {:induction false} SquareIs(version: Version, c: Cell)
    ensures InSquare(version, c) <==> InAlignment(version, c)
  {
    CentresAre(version);
    hide AlignmentPositions, AlignmentCount, Covers, Square, CENTRES;
    if InAlignment(version, c) {
      var a, b :| 0 <= a < AlignmentCount(version) && 0 <= b < AlignmentCount(version) && Covers(version, a, b, c);
      SquareAt(version, a, b, c);
    }
    if InSquare(version, c) {
      var x, y :| x in CENTRES[version] && y in CENTRES[version] && Square(Size(version), x, y, c);
      var b :| 0 <= b < |CENTRES[version]| && CENTRES[version][b] == x;
      var a :| 0 <= a < |CENTRES[version]| && CENTRES[version][a] == y;
      SquareAt(version, a, b, c);
    }
  }

  lemma {:induction false} SquareAt(version: Version, a: nat, b: nat, c: Cell)
    requires a < AlignmentCount(version) && b < AlignmentCount(version)
    ensures var x, y := AlignmentPositions(version)[b], AlignmentPositions(version)[a];
            Covers(version, a, b, c) <==> Square(Size(version), x, y, c)
  {
    CentreValues(version, a);
    CentreValues(version, b);
    hide AlignmentPositions, AlignmentCount, InCorner, Skipped;
    CornersAreSkipped(Size(version), AlignmentPositions(version)[b], AlignmentPositions(version)[a]);
  }

  /** The cells the encoder reserves are those the standard reserves. */
  lemma {:induction false} ReservedAre(version: Version, c: Cell)
    requires Inside(c, Size(version))
    ensures IsFunction(version, c) <==> Reserved(version, c)
  {
    SquareIs(version, c);
    hide InSquare, InAlignment;
  }

  lemma {:induction false} WalkIsPlaced(size: nat, p: nat, v: nat, k: nat)
    requires size % 2 == 1 && size >= 7 && k < |Walk(size, p, v)|
    requires (p < Pairs(size) && v <= size) || (p == Pairs(size) && v == 0)
    ensures Walk(size, p, v)[k] == Placed(size, k)
    decreases p, v
  {
    WalkVisits(size, p, v);
    if v > 0 {
      WalkVisits(size, p, v - 1);
      if k < |Walk(size, p, v - 1)| {
        WalkIsPlaced(size, p, v - 1, k);
      } else {
        hide Walk;
        StepIsPlaced(size, p, v - 1, k);
        LastTwo(size, p, v);
      }
    } else if p > 0 {
      assert Walk(size, p, 0) == Walk(size, p - 1, size);
      WalkIsPlaced(size, p - 1, size, k);
    }
  }

  lemma {:induction false} LastTwo(size: nat, p: nat, v: nat)
    requires v > 0
    ensures var x, y := RightColumn(size, p), RowOf(size, p, v - 1);
            Walk(size, p, v) == Walk(size, p, v - 1) + [Cell(x, y), Cell(x - 1, y)]
  {
    hide RightColumn, RowOf;
  }

  lemma {:induction false} PlacedIs(size: nat, k: nat, pair: nat, v: nat, side: nat)
    requires v < size && side < 2 && k == pair * (2 * size) + (2 * v + side)
    ensures Placed(size, k) == Cell(RightColumn(size, pair) - side, RowOf(size, pair, v))
  {
    DivUnique(k, 2 * size, pair, 2 * v + side);
  }

  lemma {:induction false} StepIsPlaced(size: nat, p: nat, v: nat, k: nat)
    requires v < size && 2 * (p * size + v) <= k < 2 * (p * size + v) + 2
    ensures Placed(size, k) == Cell(RightColumn(size, p) - (k - 2 * (p * size + v)), RowOf(size, p, v))
  {
    hide Placed, RightColumn, RowOf;
    assert 2 * (p * size) == p * (2 * size);
    PlacedIs(size, k, p, v, k - 2 * (p * size + v));
  }

  lemma {:induction false} StepsOfWalk(size: nat)
    requires size % 2 == 1 && size >= 7
    ensures |WholeWalk(size)| == StepCount(size) && forall c :: c in WholeWalk(size) ==> Inside(c, size)
  {
    hide WholeWalk, Distinct;
    WalkVisitsOnce(size);
  }

  /** The encoder visits the cells in the standard's order. */
  lemma {:induction false} WholeWalkIsPlaced(size: nat, k: nat)
    requires size % 2 == 1 && size >= 7 && k < StepCount(size)
    ensures |WholeWalk(size)| == StepCount(size) && WholeWalk(size)[k] == Placed(size, k)
    ensures Inside(Placed(size, k), size)
  {
    StepsOfWalk(size);
    hide Walk, Placed, StepCount, Inside;
    WalkIsPlaced(size, Pairs(size), 0, k);
    assert WholeWalk(size)[k] in WholeWalk(size);
  }
}
