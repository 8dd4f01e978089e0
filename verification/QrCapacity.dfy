/** The function patterns leave at least as many modules free as the tables count as raw modules. */
module QrCapacity {
  import opened QrTables
  import opened QrWalk
  import opened QrLayout

  function Rect(x: int, y: int, w: nat, h: nat): set<Cell> {
    set i, j | x <= i < x + w && y <= j < y + h :: Cell(i, j)
  }

  lemma {:induction false} InRect(x: int, y: int, w: nat, h: nat, c: Cell)
    ensures c in Rect(x, y, w, h) <==> x <= c.x < x + w && y <= c.y < y + h
  {
    if x <= c.x < x + w && y <= c.y < y + h {
      assert Cell(c.x, c.y) == c;
    }
  }

  lemma {:induction false} LineSize(x: int, y: int, w: nat)
    ensures |Rect(x, y, w, 1)| == w
  {
    if w > 0 {
      LineSize(x, y, w - 1);
      var shorter, last := Rect(x, y, w - 1, 1), Cell(x + w - 1, y);
      forall c ensures c in Rect(x, y, w, 1) <==> c in shorter || c == last {
        InRect(x, y, w, 1, c);
        InRect(x, y, w - 1, 1, c);
      }
      InRect(x, y, w - 1, 1, last);
      assert Rect(x, y, w, 1) == shorter + {last};
    } else {
      forall c ensures c !in Rect(x, y, 0, 1) { InRect(x, y, 0, 1, c); }
      assert Rect(x, y, 0, 1) == {};
    }
  }

  lemma {:induction false} RectSize(x: int, y: int, w: nat, h: nat)
    ensures |Rect(x, y, w, h)| == w * h
  {
    if h == 0 {
      forall c ensures c !in Rect(x, y, w, 0) { InRect(x, y, w, 0, c); }
      assert Rect(x, y, w, 0) == {};
    } else {
      RectSize(x, y, w, h - 1);
      LineSize(x, y + h - 1, w);
      var above, line := Rect(x, y, w, h - 1), Rect(x, y + h - 1, w, 1);
      forall c ensures (c in Rect(x, y, w, h) <==> c in above || c in line) && !(c in above && c in line) {
        InRect(x, y, w, h, c);
        InRect(x, y, w, h - 1, c);
        InRect(x, y + h - 1, w, 1, c);
      }
      assert Rect(x, y, w, h) == above + line && above !! line;
      assert w * h == w * (h - 1) + w;
    }
  }

  lemma {:induction false} UnionSize<T>(a: set<T>, b: set<T>)
    ensures |a + b| <= |a| + |b|
  {}

  // ---------- alignment patterns ----------

  /** The cells of alignment pattern (a, b) outside the timing row and column. */
  function PatternCells(version: Version, a: nat, b: nat): set<Cell>
    requires a < AlignmentCount(version) && b < AlignmentCount(version)
  {
    var last := AlignmentCount(version) - 1;
    var x, y := AlignmentPositions(version)[b], AlignmentPositions(version)[a];
    if (b == 0 && (a == 0 || a == last)) || (b == last && a == 0) then {}
    else if b == 0 then Rect(x - 2, y - 2, 2, 5) + Rect(x + 1, y - 2, 2, 5)
    else if a == 0 then Rect(x - 2, y - 2, 5, 2) + Rect(x - 2, y + 1, 5, 2)
    else Rect(x - 2, y - 2, 5, 5)
  }

  function PatternBound(version: Version, a: nat, b: nat): nat
    requires AlignmentCount(version) > 0
  {
    var last := AlignmentCount(version) - 1;
    if (b == 0 && (a == 0 || a == last)) || (b == last && a == 0) then 0
    else if b == 0 || a == 0 then 20 else 25
  }

  lemma {:induction false} PatternSize(version: Version, a: nat, b: nat)
    requires a < AlignmentCount(version) && b < AlignmentCount(version)
    ensures |PatternCells(version, a, b)| <= PatternBound(version, a, b)
  {
    hide Rect, AlignmentPositions, AlignmentCount;
    var x, y := AlignmentPositions(version)[b], AlignmentPositions(version)[a];
    TwoColumnsSize(x, y);
    TwoRowsSize(x, y);
    RectSize(x - 2, y - 2, 5, 5);
  }

  /** A pattern without the timing column through its middle. */
  lemma {:induction false} TwoColumnsSize(x: int, y: int)
    ensures |Rect(x - 2, y - 2, 2, 5) + Rect(x + 1, y - 2, 2, 5)| <= 20
  {
    hide Rect;
    RectSize(x - 2, y - 2, 2, 5);
    RectSize(x + 1, y - 2, 2, 5);
    UnionSize(Rect(x - 2, y - 2, 2, 5), Rect(x + 1, y - 2, 2, 5));
  }

  lemma {:induction false} TwoRowsSize(x: int, y: int)
    ensures |Rect(x - 2, y - 2, 5, 2) + Rect(x - 2, y + 1, 5, 2)| <= 20
  {
    hide Rect;
    RectSize(x - 2, y - 2, 5, 2);
    RectSize(x - 2, y + 1, 5, 2);
    UnionSize(Rect(x - 2, y - 2, 5, 2), Rect(x - 2, y + 1, 5, 2));
  }

  /** A covered cell outside the timing lines is a cell of the pattern. */
  lemma {:induction false} CoveredIsCounted(version: Version, a: nat, b: nat, c: Cell)
    requires version > 1 && a < AlignmentCount(version) && b < AlignmentCount(version)
    requires Covers(version, a, b, c) && c.x != 6 && c.y != 6
    ensures c in PatternCells(version, a, b)
  {
    PositionsSpread(version);
    hide AlignmentPositions;
    var x, y := AlignmentPositions(version)[b], AlignmentPositions(version)[a];
    InRect(x - 2, y - 2, 2, 5, c);
    InRect(x + 1, y - 2, 2, 5, c);
    InRect(x - 2, y - 2, 5, 2, c);
    InRect(x - 2, y + 1, 5, 2, c);
    InRect(x - 2, y - 2, 5, 5, c);
    hide Rect;
  }

  /** The patterns of the first rows, and of row a the first b. */
  function AlignmentCells(version: Version, a: nat, b: nat): set<Cell>
    requires b <= AlignmentCount(version) && (a < AlignmentCount(version) || (a == AlignmentCount(version) && b == 0))
    decreases a, b
  {
    if b > 0 then AlignmentCells(version, a, b - 1) + PatternCells(version, a, b - 1)
    else if a > 0 then AlignmentCells(version, a - 1, AlignmentCount(version))
    else {}
  }

  function AlignmentBound(version: Version, a: nat, b: nat): nat
    requires b <= AlignmentCount(version) && (a < AlignmentCount(version) || (a == AlignmentCount(version) && b == 0))
    decreases a, b
  {
    if b > 0 then AlignmentBound(version, a, b - 1) + PatternBound(version, a, b - 1)
    else if a > 0 then AlignmentBound(version, a - 1, AlignmentCount(version))
    else 0
  }

  lemma {:induction false} AlignmentCellsBounded(version: Version, a: nat, b: nat)
    requires b <= AlignmentCount(version) && (a < AlignmentCount(version) || (a == AlignmentCount(version) && b == 0))
    ensures |AlignmentCells(version, a, b)| <= AlignmentBound(version, a, b)
    ensures forall a', b' :: (0 <= a' < AlignmentCount(version) && 0 <= b' < AlignmentCount(version)
                              && (a' < a || (a' == a && b' < b)))
                             ==> PatternCells(version, a', b') <= AlignmentCells(version, a, b)
    decreases a, b
  {
    hide PatternCells, PatternBound, AlignmentCount;
    if b > 0 {
      AlignmentCellsBounded(version, a, b - 1);
      PatternSize(version, a, b - 1);
      UnionSize(AlignmentCells(version, a, b - 1), PatternCells(version, a, b - 1));
    } else if a > 0 {
      AlignmentCellsBounded(version, a - 1, AlignmentCount(version));
    }
  }

  lemma {:induction false} FirstRowBound(version: Version, b: nat)
    requires 0 < b <= AlignmentCount(version) && AlignmentCount(version) > 1
    ensures AlignmentBound(version, 0, b) == 20 * ((if b < AlignmentCount(version) then b else b - 1) - 1)
  {
    hide AlignmentCount;
    if b > 1 {
      FirstRowBound(version, b - 1);
    } else {
      assert AlignmentBound(version, 0, 0) == 0;
    }
  }

  lemma {:induction false} RowBound(version: Version, a: nat, b: nat)
    requires 0 < a < AlignmentCount(version) && 0 < b <= AlignmentCount(version)
    ensures AlignmentBound(version, a, b)
            == AlignmentBound(version, a, 0) + (if a == AlignmentCount(version) - 1 then 0 else 20) + 25 * (b - 1)
  {
    hide AlignmentCount;
    if b > 1 {
      RowBound(version, a, b - 1);
    }
  }

  lemma {:induction false} RowSum(version: Version, a: nat)
    requires 0 < a < AlignmentCount(version)
    ensures var n := AlignmentCount(version);
            AlignmentBound(version, a + 1, 0)
            == AlignmentBound(version, a, 0) + (if a == n - 1 then 0 else 20) + 25 * (n - 1)
  {
    hide AlignmentCount;
    RowBound(version, a, AlignmentCount(version));
  }

  /** The closed form of the bound, as it appears in the count of raw modules. */
  lemma {:induction false} AlignmentTotal(version: Version)
    requires version > 1
    ensures var n := AlignmentCount(version);
            AlignmentBound(version, n, 0) == (25 * n - 10) * n - 55
  {
    var n := AlignmentCount(version);
    assert n == 2 || n == 3 || n == 4;
    FirstRowBound(version, n);
    assert AlignmentBound(version, 1, 0) == AlignmentBound(version, 0, n);
    hide AlignmentBound, AlignmentCount;
    RowSum(version, 1);
    if n > 2 { RowSum(version, 2); }
    if n > 3 { RowSum(version, 3); }
  }

  // ---------- all function patterns ----------

  function FinderCells(size: nat): set<Cell>
    requires size >= 21
  {
    Rect(0, 0, 6, 8) + Rect(7, 0, 1, 8) + Rect(size - 8, 0, 8, 8) + Rect(0, size - 8, 6, 8) + Rect(7, size - 8, 1, 8)
  }

  function FormatCells(size: nat): set<Cell>
    requires size >= 21
  {
    Rect(8, 0, 1, 6) + Rect(8, 7, 1, 2) + Rect(8, size - 8, 1, 8) + Rect(0, 8, 6, 1)
    + Rect(7, 8, 1, 1) + Rect(size - 8, 8, 8, 1)
  }

  function VersionCells(size: nat): set<Cell>
    requires size >= 21
  {
    Rect(size - 11, 0, 3, 6) + Rect(0, size - 11, 6, 3)
  }

  lemma {:induction false} FinderSize(size: nat)
    requires size >= 21
    ensures |FinderCells(size)| <= 176
  {
    RectSize(0, 0, 6, 8);
    RectSize(7, 0, 1, 8);
    RectSize(size - 8, 0, 8, 8);
    RectSize(0, size - 8, 6, 8);
    RectSize(7, size - 8, 1, 8);
    hide Rect;
    var a, b, c, d, e := Rect(0, 0, 6, 8), Rect(7, 0, 1, 8), Rect(size - 8, 0, 8, 8), Rect(0, size - 8, 6, 8),
        Rect(7, size - 8, 1, 8);
    UnionSize(a, b);
    UnionSize(a + b, c);
    UnionSize(a + b + c, d);
    UnionSize(a + b + c + d, e);
  }

  lemma {:induction false} FormatSize(size: nat)
    requires size >= 21
    ensures |FormatCells(size)| <= 31
  {
    RectSize(8, 0, 1, 6);
    RectSize(8, 7, 1, 2);
    RectSize(8, size - 8, 1, 8);
    RectSize(0, 8, 6, 1);
    RectSize(7, 8, 1, 1);
    RectSize(size - 8, 8, 8, 1);
    hide Rect;
    var a, b, c, d, e, f := Rect(8, 0, 1, 6), Rect(8, 7, 1, 2), Rect(8, size - 8, 1, 8), Rect(0, 8, 6, 1),
        Rect(7, 8, 1, 1), Rect(size - 8, 8, 8, 1);
    UnionSize(a, b);
    UnionSize(a + b, c);
    UnionSize(a + b + c, d);
    UnionSize(a + b + c + d, e);
    UnionSize(a + b + c + d + e, f);
  }

  lemma {:induction false} VersionSize(size: nat)
    requires size >= 21
    ensures |VersionCells(size)| <= 36
  {
    RectSize(size - 11, 0, 3, 6);
    RectSize(0, size - 11, 6, 3);
    hide Rect;
    UnionSize(Rect(size - 11, 0, 3, 6), Rect(0, size - 11, 6, 3));
  }

  /** Every function module outside column 6. */
  function FunctionCells(version: Version): set<Cell> {
    var size := Size(version);
    FinderCells(size) + Rect(8, 6, size - 16, 1) + AlignmentCells(version, AlignmentCount(version), 0)
    + FormatCells(size)
    + OtherCells(version)
  }

  function OtherCells(version: Version): set<Cell> {
    if version >= 7 then VersionCells(Size(version)) else {}
  }

  function AlignmentModules(version: Version): int {
    var n := AlignmentCount(version);
    if version > 1 then (25 * n - 10) * n - 55 else 0
  }

  lemma {:induction false} AlignmentSize(version: Version)
    ensures |AlignmentCells(version, AlignmentCount(version), 0)| <= AlignmentModules(version)
  {
    AlignmentCellsBounded(version, AlignmentCount(version), 0);
    if version > 1 {
      AlignmentTotal(version);
    } else {
      assert AlignmentBound(version, 0, 0) == 0;
    }
    hide AlignmentCells;
  }

  lemma {:induction false} RawModulesFormula(version: Version)
    ensures var size := Size(version);
            RawModules(version) == size * (size - 1) - 176 - (size - 16) - AlignmentModules(version)
                                   - 31 - (if version >= 7 then 36 else 0)
  {
  }

  lemma {:induction false} OtherSize(version: Version)
    ensures |OtherCells(version)| <= if version >= 7 then 36 else 0
  {
    VersionSize(Size(version));
    hide VersionCells;
  }

  lemma {:induction false} SizeFacts(version: Version)
    ensures Size(version) >= 21 && Size(version) % 2 == 1
  {}

  lemma {:induction false} FunctionCellsUnion(version: Version, size: nat, n: nat)
    requires size == Size(version) && size >= 21 && n == AlignmentCount(version)
    ensures |FunctionCells(version)|
            <= |FinderCells(size)| + |Rect(8, 6, size - 16, 1)| + |AlignmentCells(version, n, 0)| + |FormatCells(size)|
               + |OtherCells(version)|
  {
    hide Rect, FinderCells, AlignmentCells, FormatCells, OtherCells, Size, AlignmentCount;
    UnionOfFive(FinderCells(size), Rect(8, 6, size - 16, 1), AlignmentCells(version, n, 0), FormatCells(size),
        OtherCells(version));
  }

  /** At most the modules that RawModules leaves out: the counting argument behind its formula. */
  lemma {:induction false} FunctionSize(version: Version)
    ensures |FunctionCells(version)| <= Size(version) * (Size(version) - 1) - RawModules(version)
  {
    hide *;
    var size := Size(version);
    SizeFacts(version);
    FunctionCellsUnion(version, size, AlignmentCount(version));
    FinderSize(size);
    RectSize(8, 6, size - 16, 1);
    AlignmentSize(version);
    FormatSize(size);
    OtherSize(version);
    RawModulesFormula(version);
  }

  lemma {:induction false} UnionOfFive<T>(a: set<T>, b: set<T>, c: set<T>, d: set<T>, e: set<T>)
    ensures |a + b + c + d + e| <= |a| + |b| + |c| + |d| + |e|
  {
    UnionSize(a, b);
    UnionSize(a + b, c);
    UnionSize(a + b + c, d);
    UnionSize(a + b + c + d, e);
  }

  lemma {:induction false} FunctionCellsCovered(version: Version, c: Cell)
    requires Inside(c, Size(version)) && c.x != 6 && IsFunction(version, c)
    ensures c in FunctionCells(version)
  {
    var size, n := Size(version), AlignmentCount(version);
    if InFinder(size, c) {
      FinderCovered(size, c);
    } else if InFormat(size, c) {
      FormatCovered(size, c);
    } else if version >= 7 && InVersion(size, c) {
      VersionCovered(size, c);
    } else if c.y == 6 {
      InRect(8, 6, size - 16, 1, c);
    } else {
      var a, b :| 0 <= a < n && 0 <= b < n && Covers(version, a, b, c);
      CoveredIsCounted(version, a, b, c);
      AlignmentCellsBounded(version, n, 0);
    }
  }

  lemma {:induction false} FinderCovered(size: nat, c: Cell)
    requires size >= 21 && Inside(c, size) && c.x != 6 && InFinder(size, c)
    ensures c in FinderCells(size)
  {
    InRect(0, 0, 6, 8, c);
    InRect(7, 0, 1, 8, c);
    InRect(size - 8, 0, 8, 8, c);
    InRect(0, size - 8, 6, 8, c);
    InRect(7, size - 8, 1, 8, c);
    hide Rect;
  }

  lemma {:induction false} FormatCovered(size: nat, c: Cell)
    requires size >= 21 && Inside(c, size) && InFormat(size, c)
    ensures c in FormatCells(size)
  {
    InRect(8, 0, 1, 6, c);
    InRect(8, 7, 1, 2, c);
    InRect(8, size - 8, 1, 8, c);
    InRect(0, 8, 6, 1, c);
    InRect(7, 8, 1, 1, c);
    InRect(size - 8, 8, 8, 1, c);
    hide Rect;
  }

  lemma {:induction false} VersionCovered(size: nat, c: Cell)
    requires size >= 21 && InVersion(size, c)
    ensures c in VersionCells(size)
  {
    InRect(size - 11, 0, 3, 6, c);
    InRect(0, size - 11, 6, 3, c);
    hide Rect;
  }

  // ---------- the room for data ----------

  lemma {:induction false} DistinctSize(cells: seq<Cell>)
    requires Distinct(cells)
    ensures |set c | c in cells| == |cells|
  {
    if |cells| > 0 {
      var rest, last := cells[..|cells| - 1], cells[|cells| - 1];
      DistinctSize(rest);
      assert (set c | c in cells) == (set c | c in rest) + {last};
    }
  }

  /** The reserved cells are exactly those of the function patterns. */
  ghost predicate ReservesFunctions(reserved: Grid, version: Version)
    requires IsGrid(reserved, Size(version))
  {
    forall c: Cell :: Inside(c, Size(version)) ==> (At(reserved, Size(version), c) <==> IsFunction(version, c))
  }

  /** The walk finds room for every codeword bit. */
  lemma {:induction false} EnoughFreeModules(reserved: Grid, version: Version)
    requires IsGrid(reserved, Size(version)) && ReservesFunctions(reserved, version)
    ensures forall c :: c in WholeWalk(Size(version)) ==> Inside(c, Size(version))
    ensures |Free(WholeWalk(Size(version)), reserved, Size(version))| >= RawModules(version)
  {
    SizeFacts(version);
    hide *;
    var size := Size(version);
    WalkVisitsOnce(size);
    FunctionSize(version);
    assert forall c :: c in WholeWalk(size) ==> Inside(c, size);
    forall c | c in WholeWalk(size) && At(reserved, size, c) ensures c in FunctionCells(version) {
      ReservedIsCounted(reserved, version, c);
    }
    FreeCount(WholeWalk(size), reserved, size, FunctionCells(version));
  }

  lemma {:induction false} ReservedIsCounted(reserved: Grid, version: Version, c: Cell)
    requires IsGrid(reserved, Size(version)) && ReservesFunctions(reserved, version)
    requires Inside(c, Size(version)) && c.x != 6 && At(reserved, Size(version), c)
    ensures c in FunctionCells(version)
  {
    hide IsFunction, FunctionCells;
    FunctionCellsCovered(version, c);
  }

  lemma {:induction false} FreeCount(walk: seq<Cell>, reserved: Grid, size: nat, closed: set<Cell>)
    requires IsGrid(reserved, size) && (forall c :: c in walk ==> Inside(c, size)) && Distinct(walk)
    requires forall c :: c in walk && At(reserved, size, c) ==> c in closed
    ensures |Free(walk, reserved, size)| >= |walk| - |closed|
  {
    var free := Free(walk, reserved, size);
    FreeDistinct(walk, reserved, size);
    DistinctSize(walk);
    DistinctSize(free);
    hide Free, At, IsGrid, Inside;
    var all, open := (set c | c in walk), (set c | c in free);
    assert all <= open + closed;
    SubsetSize(all, open + closed);
    UnionSize(open, closed);
  }

  lemma {:induction false} SubsetSize<T>(a: set<T>, b: set<T>)
    requires a <= b
    ensures |a| <= |b|
  {
    assert b == a + (b - a);
  }
}
